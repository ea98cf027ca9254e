/**
 * IterDomain: one loop axis of a tensor, made of an extent, a parallel type and a
 * reduction flag. Every node carries an `id` that stands for its identity (its address
 * in the owning graph); two nodes are the same node exactly when they are equal as
 * values, while `same_as` is the structural comparison that never looks at `id`.
 */
module IterDomains {
  import opened Wrappers
  import Types

  /**
   * An integer-valued scalar node used as an extent: a constant when `value` is
   * present, a symbolic (unbound) integer otherwise.
   */
  datatype Int = Int(id: nat, value: Option<int>)

  /**
   * Structural equality of extents: two constants agree when their values agree, and
   * a symbolic integer agrees only with itself.
   */
  predicate IntSameAs(a: Int, b: Int) {
    a.value == b.value && (a.value.Some? || a.id == b.id)
  }

  lemma IntSameAsIsEquivalence(a: Int, b: Int, c: Int)
    ensures IntSameAs(a, a)
    ensures IntSameAs(a, b) ==> IntSameAs(b, a)
    ensures IntSameAs(a, b) && IntSameAs(b, c) ==> IntSameAs(a, c)
  {
  }

  /**
   * A value node seen through the generic value interface, before narrowing: its kind,
   * its data type and, for a constant scalar, its value. An IterDomain node, for one,
   * is a value of kind IterDomain and data type Int.
   */
  datatype Val = Val(id: nat, vtype: Types.ValType, dtype: Types.DataType, value: Option<int>)

  /** An axis; a serial, non-reduction axis unless told otherwise. */
  datatype IterDomain = IterDomain(
    id: nat,
    extent: Int,
    parallelMethod: Types.ParallelType := Types.Serial,
    isReduction: bool := false)

  /**
   * The constructor that takes a generic value as its size, as written: only the data
   * type is checked, and the value is then narrowed to an integer scalar node with the
   * same identity, whatever its kind.
   */
  function IterDomainFromVal(
    id: nat,
    intSize: Val,
    parallelMethod: Types.ParallelType := Types.Serial,
    isReduction: bool := false): (d: IterDomain)
    requires intSize.dtype == Types.Int
    ensures d.extent.id == intSize.id && d.extent.value == intSize.value
    ensures d.parallelMethod == parallelMethod && d.isReduction == isReduction
  {
    IterDomain(id, Int(intSize.id, intSize.value), parallelMethod, isReduction)
  }

  /**
   * The narrowing check is too weak: every value of another kind whose data type is
   * Int, such as an IterDomain, passes it and its node is taken as the extent, while
   * the intended check rejects it.
   */
  lemma IterDomainFromValAcceptsNonScalar(
    id: nat, v: Val, parallelMethod: Types.ParallelType, isReduction: bool)
    requires v.dtype == Types.Int && v.vtype != Types.Scalar
    ensures IterDomainFromVal(id, v, parallelMethod, isReduction).extent == Int(v.id, v.value)
    ensures IterDomainFromScalar(id, v, parallelMethod, isReduction) == Err(ConstructionError)
  {
  }

  /**
   * The constructor from a generic value with the intended check: only an integer
   * scalar node is narrowed to an extent; anything else is a construction error.
   */
  function IterDomainFromScalar(
    id: nat,
    intSize: Val,
    parallelMethod: Types.ParallelType := Types.Serial,
    isReduction: bool := false): (r: Result<IterDomain>)
    ensures r.Ok? <==> intSize.vtype == Types.Scalar && intSize.dtype == Types.Int
    ensures r.Err? ==> r.error == ConstructionError
    ensures r.Ok? ==>
      r.value.extent.id == intSize.id && r.value.extent.value == intSize.value
      && r.value.parallelMethod == parallelMethod && r.value.isReduction == isReduction
  {
    if intSize.vtype == Types.Scalar && intSize.dtype == Types.Int then
      Ok(IterDomainFromVal(id, intSize, parallelMethod, isReduction))
    else
      Err(ConstructionError)
  }

  /** `same_as` on axes: reduction flags, parallel types and extents must all agree. */
  predicate IterSameAs(a: IterDomain, b: IterDomain) {
    a.isReduction == b.isReduction
    && a.parallelMethod == b.parallelMethod
    && IntSameAs(a.extent, b.extent)
  }

  /** Structural equality of axes is decided by the three annotations alone, never by identity. */
  lemma IterSameAsIsStructural(a: IterDomain, b: IterDomain, i: nat, j: nat)
    ensures IterSameAs(a.(id := i), b.(id := j))
      <==> a.isReduction == b.isReduction
           && a.parallelMethod == b.parallelMethod
           && IntSameAs(a.extent, b.extent)
  {
  }

  lemma IterSameAsIsEquivalence(a: IterDomain, b: IterDomain, c: IterDomain)
    ensures IterSameAs(a, a)
    ensures IterSameAs(a, b) ==> IterSameAs(b, a)
    ensures IterSameAs(a, b) && IterSameAs(b, c) ==> IterSameAs(a, c)
  {
    IntSameAsIsEquivalence(a.extent, b.extent, c.extent);
  }
}
