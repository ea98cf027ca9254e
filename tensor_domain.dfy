/**
 * TensorDomain: the ordered, fixed-length list of axes of a tensor. Axes are held by
 * identity: the same IterDomain node may appear in several domains.
 */
module TensorDomains {
  import opened Wrappers
  import opened IterDomains

  datatype TensorDomain = TensorDomain(id: nat, axes: seq<IterDomain>)

  function Size(d: TensorDomain): nat {
    |d.axes|
  }

  /** The position `axis` looks up for index `i`: a negative index counts from the end. */
  function WrapIndex(i: int, size: nat): int {
    if i < 0 then i + size else i
  }

  /** The range check after wrapping admits exactly the indices in [-size, size). */
  lemma WrapIndexInRange(i: int, size: nat)
    ensures 0 <= WrapIndex(i, size) < size <==> -(size as int) <= i < size
  {
  }

  /**
   * `axis(i)`: the axis at position `i`, where `-1` is the last one. An index that is
   * still outside the domain after wrapping is an assertion failure, so callers must
   * not pass one.
   */
  function Axis(d: TensorDomain, i: int): (r: IterDomain)
    requires 0 <= WrapIndex(i, Size(d)) < Size(d)
    ensures 0 <= i ==> r == d.axes[i]
    ensures i < 0 ==> r == d.axes[Size(d) + i]
  {
    d.axes[WrapIndex(i, Size(d))]
  }

  /** A negative index names the same node as its non-negative counterpart. */
  lemma AxisNegative(d: TensorDomain, i: int)
    requires -(Size(d) as int) <= i < 0
    ensures Axis(d, i) == Axis(d, i + Size(d))
  {
  }

  /**
   * Every node of `td` (the domain itself, its axes and their extents) has an identity
   * below `next`, so a node allocated from `next` on is none of them.
   */
  predicate IdsBelow(td: TensorDomain, next: nat) {
    td.id < next
    && forall k :: 0 <= k < Size(td) ==> td.axes[k].id < next && td.axes[k].extent.id < next
  }

  /**
   * The early-exit scan of `same_as`: the first position at or after `i` where the
   * axes of `a` and `b` are not `same_as`, if there is one.
   */
  function FirstMismatch(a: TensorDomain, b: TensorDomain, i: nat): (r: Option<nat>)
    requires Size(a) == Size(b) && i <= Size(a)
    ensures r.None? <==> forall k :: i <= k < Size(a) ==> IterSameAs(a.axes[k], b.axes[k])
    ensures r.Some? ==> i <= r.value < Size(a) && !IterSameAs(a.axes[r.value], b.axes[r.value])
    ensures r.Some? ==> forall k :: i <= k < r.value ==> IterSameAs(a.axes[k], b.axes[k])
    decreases Size(a) - i
  {
    if i == Size(a) then None
    else if !IterSameAs(Axis(a, i), Axis(b, i)) then Some(i)
    else FirstMismatch(a, b, i + 1)
  }

  /** `same_as` on domains: sizes first, then the axes position by position. */
  predicate DomainSameAs(a: TensorDomain, b: TensorDomain) {
    Size(a) == Size(b) && FirstMismatch(a, b, 0).None?
  }

  /**
   * Domains of different sizes are never `same_as`; domains of equal size are `same_as`
   * exactly when every pair of axes at the same position is.
   */
  lemma DomainSameAsIff(a: TensorDomain, b: TensorDomain)
    ensures Size(a) != Size(b) ==> !DomainSameAs(a, b)
    ensures Size(a) == Size(b) ==>
      (DomainSameAs(a, b) <==> forall i :: 0 <= i < Size(a) ==> IterSameAs(Axis(a, i), Axis(b, i)))
  {
    if Size(a) == Size(b) {
      forall i | 0 <= i < Size(a)
        ensures Axis(a, i) == a.axes[i] && Axis(b, i) == b.axes[i]
      {
      }
    }
  }

  /** `same_as` on domains inherits reflexivity, symmetry and transitivity from the axes. */
  lemma DomainSameAsIsEquivalence(a: TensorDomain, b: TensorDomain, c: TensorDomain)
    ensures DomainSameAs(a, a)
    ensures DomainSameAs(a, b) ==> DomainSameAs(b, a)
    ensures DomainSameAs(a, b) && DomainSameAs(b, c) ==> DomainSameAs(a, c)
  {
    forall k | 0 <= k < Size(a)
      ensures IterSameAs(a.axes[k], a.axes[k])
    {
      IterSameAsIsEquivalence(a.axes[k], a.axes[k], a.axes[k]);
    }
    if DomainSameAs(a, b) {
      forall k | 0 <= k < Size(a)
        ensures IterSameAs(b.axes[k], a.axes[k])
      {
        IterSameAsIsEquivalence(a.axes[k], b.axes[k], b.axes[k]);
      }
      if DomainSameAs(b, c) {
        forall k | 0 <= k < Size(a)
          ensures IterSameAs(a.axes[k], c.axes[k])
        {
          IterSameAsIsEquivalence(a.axes[k], b.axes[k], c.axes[k]);
        }
      }
    }
  }

  /** The identities of the two domains themselves play no part in `same_as`. */
  lemma DomainSameAsIgnoresIdentity(a: TensorDomain, b: TensorDomain, i: nat, j: nat)
    ensures DomainSameAs(a.(id := i), b.(id := j)) <==> DomainSameAs(a, b)
  {
    DomainSameAsIff(a, b);
    DomainSameAsIff(a.(id := i), b.(id := j));
  }
}
