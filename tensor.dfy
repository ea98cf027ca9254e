/**
 * Tensor: the IR's own wrapper of a JIT tensor, made of an element type, an optional
 * domain and optional contiguity metadata.
 */
module Tensors {
  import opened Wrappers
  import Types
  import opened IterDomains
  import opened TensorDomains

  /** Stride metadata of a tensor; only its presence or absence matters here. */
  datatype TensorContiguity = TensorContiguity(strides: seq<int>)

  datatype Tensor = Tensor(
    id: nat,
    dtype: Types.DataType,
    contiguity: Option<TensorContiguity>,
    domain: Option<TensorDomain>)

  /** The direct constructor: a tensor of the given type and domain, without contiguity information. */
  function NewTensor(id: nat, dt: Types.DataType, td: Option<TensorDomain> := None): (t: Tensor)
    ensures t.id == id && t.dtype == dt && t.domain == td
    ensures t.contiguity.None?
  {
    Tensor(id, dt, None, td)
  }

  /** The number of axes a placeholder tensor asked for `ndims` axes gets. */
  function DummyRank(ndims: int): nat {
    if ndims < 0 then 0 else ndims
  }

  /**
   * The axes of a placeholder tensor whose nodes are allocated from identity `next`
   * on: axis `k` is a serial, non-reduction axis over a fresh symbolic extent.
   */
  function DummyAxes(n: nat, next: nat): (axes: seq<IterDomain>)
    ensures |axes| == n
  {
    seq(n, k requires 0 <= k < n => IterDomain(next + 2 * k + 1, Int(next + 2 * k, None)))
  }

  /**
   * Every placeholder axis is serial and not a reduction, its extent is symbolic, and
   * its nodes have identities in [next, next + 2n). The extents are pairwise different
   * nodes, so under the extent comparison no two placeholder axes are `same_as`.
   */
  lemma DummyAxesAreFresh(n: nat, next: nat)
    ensures forall k :: 0 <= k < n ==>
      DummyAxes(n, next)[k].parallelMethod == Types.Serial
      && !DummyAxes(n, next)[k].isReduction
      && DummyAxes(n, next)[k].extent.value.None?
      && next <= DummyAxes(n, next)[k].extent.id < next + 2 * n
      && next <= DummyAxes(n, next)[k].id < next + 2 * n
    ensures forall j, k :: 0 <= j < n && 0 <= k < n && j != k ==>
      DummyAxes(n, next)[j].extent != DummyAxes(n, next)[k].extent
    ensures forall j, k :: 0 <= j < n && 0 <= k < n && j != k ==>
      !IterSameAs(DummyAxes(n, next)[j], DummyAxes(n, next)[k])
  {
  }

  /**
   * `MakeDummyTensor(ndims)`: a Float tensor with `ndims` placeholder axes (none for a
   * negative count) and no contiguity information. Nodes take consecutive identities
   * from `next`; `next'` is the first identity left unused.
   */
  method MakeDummyTensor(ndims: int, next: nat) returns (t: Tensor, next': nat)
    ensures t.dtype == Types.Float && t.contiguity.None? && t.domain.Some?
    ensures Size(t.domain.value) == DummyRank(ndims)
    ensures t.domain.value.axes == DummyAxes(DummyRank(ndims), next)
    ensures next <= t.domain.value.id < t.id < next'
    ensures next' == next + 2 * DummyRank(ndims) + 2
    ensures IdsBelow(t.domain.value, next') && t.id < next'
  {
    var sizes: seq<IterDomain> := [];
    var unused := next;
    var i := 0;
    while i < ndims
      invariant 0 <= i <= DummyRank(ndims)
      invariant unused == next + 2 * i
      invariant sizes == DummyAxes(i, next)
    {
      var extent := Int(unused, None);
      sizes := sizes + [IterDomain(unused + 1, extent)];
      unused := unused + 2;
      i := i + 1;
    }
    var td := TensorDomain(unused, sizes);
    t := NewTensor(unused + 1, Types.Float, Some(td));
    next' := unused + 2;
  }
}
