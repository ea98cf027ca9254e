/**
 * TensorView: a tensor seen through a (possibly transformed) domain. Its tensor and
 * domain never change; the one piece of mutable state in the IR is its compute-at
 * binding, which starts unbound (no view, axis -1) and is set by `ComputeAt`.
 */
module TensorViews {
  import opened Wrappers
  import opened TensorDomains
  import opened Tensors
  import opened Transforms

  class TensorView {
    const tensor: Tensor
    const domain: Option<TensorDomain>
    var computeAtView: TensorView?
    var computeAtAxis: int

    /** A view of `tensor` through `domain`, not computed at any producer yet. */
    constructor (tensor: Tensor, domain: Option<TensorDomain>)
      ensures this.tensor == tensor && this.domain == domain
      ensures computeAtView == null && computeAtAxis == -1
    {
      this.tensor := tensor;
      this.domain := domain;
      computeAtView := null;
      computeAtAxis := -1;
    }

    /** A view of `tensor` through the tensor's own domain, not computed at any producer yet. */
    constructor OfTensor(tensor: Tensor)
      ensures this.tensor == tensor && this.domain == tensor.domain
      ensures computeAtView == null && computeAtAxis == -1
    {
      this.tensor := tensor;
      this.domain := tensor.domain;
      computeAtView := null;
      computeAtAxis := -1;
    }

    /**
     * `same_as`: the same tensor node and `same_as` domains. It reads no mutable field,
     * so the compute-at binding never affects it.
     */
    predicate SameAs(other: TensorView)
      requires domain.Some? && other.domain.Some?
    {
      tensor == other.tensor && DomainSameAs(domain.value, other.domain.value)
    }

    /**
     * The checks made before this view is bound to `producer` at `axis`: both views
     * have domains and `axis` lies in [0, min of their sizes]. `legal` is the verdict
     * of the compute-at algorithm's own legality rules, which this model leaves abstract.
     */
    predicate ComputeAtAccepts(producer: TensorView, axis: int, legal: bool) {
      domain.Some? && producer.domain.Some?
      && 0 <= axis && axis <= Size(domain.value) && axis <= Size(producer.domain.value)
      && legal
    }

    /**
     * `computeAt(tv, axis)`: after the compute-at checks pass, this view is bound to
     * `tv` at `axis`; when they fail the result is an illegal compute-at error and the
     * earlier binding is kept. Tensor and domain are constant and so are unchanged
     * either way.
     */
    method ComputeAt(tv: TensorView, axis: int, legal: bool) returns (r: Result<()>)
      modifies this
      ensures r.Ok? == ComputeAtAccepts(tv, axis, legal)
      ensures r.Err? ==> r.error == IllegalComputeAt
      ensures r.Ok? ==> computeAtView == tv && computeAtAxis == axis
      ensures r.Err? ==> computeAtView == old(computeAtView) && computeAtAxis == old(computeAtAxis)
    {
      if ComputeAtAccepts(tv, axis, legal) {
        computeAtView := tv;
        computeAtAxis := axis;
        r := Ok(());
      } else {
        r := Err(IllegalComputeAt);
      }
    }
  }

  /** `same_as` on views is reflexive, symmetric and transitive. */
  lemma ViewSameAsIsEquivalence(a: TensorView, b: TensorView, c: TensorView)
    requires a.domain.Some? && b.domain.Some? && c.domain.Some?
    ensures a.SameAs(a)
    ensures a.SameAs(b) ==> b.SameAs(a)
    ensures a.SameAs(b) && b.SameAs(c) ==> a.SameAs(c)
  {
    DomainSameAsIsEquivalence(a.domain.value, b.domain.value, c.domain.value);
  }

  /** `split(tv, axis, factor)`: a new, unbound view of the same tensor over the split domain. */
  method SplitView(tv: TensorView, axis: int, factor: int, next: nat) returns (r: Result<TensorView>, next': nat)
    requires tv.domain.Some?
    ensures var s := SplitDomain(tv.domain.value, axis, factor, next);
      r.Ok? == s.Ok? && (r.Err? ==> r.error == s.error)
      && (r.Ok? ==> fresh(r.value) && r.value.tensor == tv.tensor
                    && r.value.domain == Some(s.value.0.outDomain) && next' == s.value.1
                    && r.value.computeAtView == null && r.value.computeAtAxis == -1)
  {
    next' := next;
    match SplitDomain(tv.domain.value, axis, factor, next)
    case Err(e) => r := Err(e);
    case Ok((s, n)) =>
      var view := new TensorView(tv.tensor, Some(s.outDomain));
      r, next' := Ok(view), n;
  }

  /** `split(t, axis, factor)`: a new, unbound view of `t` over the split of its domain. */
  method SplitTensor(t: Tensor, axis: int, factor: int, next: nat) returns (r: Result<TensorView>, next': nat)
    requires t.domain.Some?
    ensures var s := SplitDomain(t.domain.value, axis, factor, next);
      r.Ok? == s.Ok? && (r.Err? ==> r.error == s.error)
      && (r.Ok? ==> fresh(r.value) && r.value.tensor == t
                    && r.value.domain == Some(s.value.0.outDomain) && next' == s.value.1
                    && r.value.computeAtView == null && r.value.computeAtAxis == -1)
  {
    var view := new TensorView.OfTensor(t);
    r, next' := SplitView(view, axis, factor, next);
  }

  /** `merge(tv, axis)`: a new, unbound view of the same tensor over the merged domain. */
  method MergeView(tv: TensorView, axis: int, next: nat) returns (r: Result<TensorView>, next': nat)
    requires tv.domain.Some?
    ensures var m := MergeDomain(tv.domain.value, axis, next);
      r.Ok? == m.Ok? && (r.Err? ==> r.error == m.error)
      && (r.Ok? ==> fresh(r.value) && r.value.tensor == tv.tensor
                    && r.value.domain == Some(m.value.0.outDomain) && next' == m.value.1
                    && r.value.computeAtView == null && r.value.computeAtAxis == -1)
  {
    next' := next;
    match MergeDomain(tv.domain.value, axis, next)
    case Err(e) => r := Err(e);
    case Ok((m, n)) =>
      var view := new TensorView(tv.tensor, Some(m.outDomain));
      r, next' := Ok(view), n;
  }

  /** `merge(t, axis)`: a new, unbound view of `t` over the merge of its domain. */
  method MergeTensor(t: Tensor, axis: int, next: nat) returns (r: Result<TensorView>, next': nat)
    requires t.domain.Some?
    ensures var m := MergeDomain(t.domain.value, axis, next);
      r.Ok? == m.Ok? && (r.Err? ==> r.error == m.error)
      && (r.Ok? ==> fresh(r.value) && r.value.tensor == t
                    && r.value.domain == Some(m.value.0.outDomain) && next' == m.value.1
                    && r.value.computeAtView == null && r.value.computeAtAxis == -1)
  {
    var view := new TensorView.OfTensor(t);
    r, next' := MergeView(view, axis, next);
  }

  /** `reorder(tv, pos2axis)`: a new, unbound view of the same tensor over the reordered domain. */
  method ReorderView(tv: TensorView, pos2axis: map<int, int>, next: nat) returns (r: Result<TensorView>, next': nat)
    requires tv.domain.Some?
    ensures var o := ReorderDomain(tv.domain.value, pos2axis, next);
      r.Ok? == o.Ok? && (r.Err? ==> r.error == o.error)
      && (r.Ok? ==> fresh(r.value) && r.value.tensor == tv.tensor
                    && r.value.domain == Some(o.value.0.outDomain) && next' == o.value.1
                    && r.value.computeAtView == null && r.value.computeAtAxis == -1)
  {
    next' := next;
    match ReorderDomain(tv.domain.value, pos2axis, next)
    case Err(e) => r := Err(e);
    case Ok((o, n)) =>
      var view := new TensorView(tv.tensor, Some(o.outDomain));
      r, next' := Ok(view), n;
  }

  /** `reorder(t, pos2axis)`: a new, unbound view of `t` over the reordering of its domain. */
  method ReorderTensor(t: Tensor, pos2axis: map<int, int>, next: nat) returns (r: Result<TensorView>, next': nat)
    requires t.domain.Some?
    ensures var o := ReorderDomain(t.domain.value, pos2axis, next);
      r.Ok? == o.Ok? && (r.Err? ==> r.error == o.error)
      && (r.Ok? ==> fresh(r.value) && r.value.tensor == t
                    && r.value.domain == Some(o.value.0.outDomain) && next' == o.value.1
                    && r.value.computeAtView == null && r.value.computeAtAxis == -1)
  {
    var view := new TensorView.OfTensor(t);
    r, next' := ReorderView(view, pos2axis, next);
  }
}
