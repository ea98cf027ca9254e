/**
 * The transformation records Split, Merge and Reorder, their `same_as`, and the
 * domain-level transformations that the `split`, `merge` and `reorder` entry points
 * perform. Each transformation leaves its input untouched and builds a new output
 * domain; axes it does not touch are carried over as the same nodes.
 */
module Transforms {
  import opened Wrappers
  import Types
  import opened IterDomains
  import opened TensorDomains

  datatype Split = Split(outDomain: TensorDomain, inDomain: TensorDomain, axis: int, factor: Int)

  datatype Merge = Merge(outDomain: TensorDomain, inDomain: TensorDomain, axis: int)

  /** `pos2axis[new_position] == old_position`. */
  datatype Reorder = Reorder(outDomain: TensorDomain, inDomain: TensorDomain, pos2axis: seq<int>)

  // ---------------------------------------------------------------------------
  // Structural equality of the records
  // ---------------------------------------------------------------------------

  predicate SplitSameAs(a: Split, b: Split) {
    DomainSameAs(a.outDomain, b.outDomain)
    && DomainSameAs(a.inDomain, b.inDomain)
    && a.axis == b.axis
    && IntSameAs(a.factor, b.factor)
  }

  /** Split records agree exactly when domains, axis and factor agree, and that is an equivalence. */
  lemma SplitSameAsIsEquivalence(a: Split, b: Split, c: Split)
    ensures SplitSameAs(a, b) <==>
      DomainSameAs(a.outDomain, b.outDomain) && DomainSameAs(a.inDomain, b.inDomain)
      && a.axis == b.axis && IntSameAs(a.factor, b.factor)
    ensures SplitSameAs(a, a)
    ensures SplitSameAs(a, b) ==> SplitSameAs(b, a)
    ensures SplitSameAs(a, b) && SplitSameAs(b, c) ==> SplitSameAs(a, c)
  {
    DomainSameAsIsEquivalence(a.outDomain, b.outDomain, c.outDomain);
    DomainSameAsIsEquivalence(a.inDomain, b.inDomain, c.inDomain);
    IntSameAsIsEquivalence(a.factor, b.factor, c.factor);
  }

  predicate MergeSameAs(a: Merge, b: Merge) {
    DomainSameAs(a.outDomain, b.outDomain)
    && DomainSameAs(a.inDomain, b.inDomain)
    && a.axis == b.axis
  }

  /** Merge records agree exactly when domains and axis agree, and that is an equivalence. */
  lemma MergeSameAsIsEquivalence(a: Merge, b: Merge, c: Merge)
    ensures MergeSameAs(a, b) <==>
      DomainSameAs(a.outDomain, b.outDomain) && DomainSameAs(a.inDomain, b.inDomain) && a.axis == b.axis
    ensures MergeSameAs(a, a)
    ensures MergeSameAs(a, b) ==> MergeSameAs(b, a)
    ensures MergeSameAs(a, b) && MergeSameAs(b, c) ==> MergeSameAs(a, c)
  {
    DomainSameAsIsEquivalence(a.outDomain, b.outDomain, c.outDomain);
    DomainSameAsIsEquivalence(a.inDomain, b.inDomain, c.inDomain);
  }

  /** `same_as` on Reorder records as written: only the output and input domains are compared. */
  predicate ReorderSameAs(a: Reorder, b: Reorder) {
    DomainSameAs(a.outDomain, b.outDomain) && DomainSameAs(a.inDomain, b.inDomain)
  }

  /** `same_as` on Reorder records that also compares the maps. */
  predicate ReorderSameAsStrict(a: Reorder, b: Reorder) {
    ReorderSameAs(a, b) && a.pos2axis == b.pos2axis
  }

  // ---------------------------------------------------------------------------
  // Reorder
  // ---------------------------------------------------------------------------

  /** The relation a Reorder record states between its domains: `out.axis(k) == in.axis(pos2axis[k])`. */
  predicate IsReorderOf(r: Reorder) {
    Size(r.outDomain) == Size(r.inDomain) == |r.pos2axis|
    && forall k :: 0 <= k < |r.pos2axis| ==>
         0 <= r.pos2axis[k] < Size(r.inDomain) && r.outDomain.axes[k] == r.inDomain.axes[r.pos2axis[k]]
  }

  /** A map from new positions to old positions that is a bijection on [0, n). */
  predicate IsPos2AxisMap(m: map<int, int>, n: nat) {
    (forall k :: 0 <= k < n ==> k in m)
    && (forall k :: k in m ==> 0 <= k < n && 0 <= m[k] < n)
    && (forall j, k :: j in m && k in m && j != k ==> m[j] != m[k])
    && (forall v :: 0 <= v < n ==> v in m.Values)
  }

  /** The axes of `axes` taken in the order `p` lists their positions. */
  function Permute(axes: seq<IterDomain>, p: seq<int>): (r: seq<IterDomain>)
    requires forall k :: 0 <= k < |p| ==> 0 <= p[k] < |axes|
    ensures |r| == |p|
    ensures forall k :: 0 <= k < |p| ==> r[k] == axes[p[k]]
  {
    seq(|p|, k requires 0 <= k < |p| => axes[p[k]])
  }

  /**
   * `reorder` on a domain: the output domain (identity `next`) lists the input axes
   * in the order the map gives, new position to old position. A map that is not a
   * bijection on the positions is rejected.
   */
  function ReorderDomain(td: TensorDomain, m: map<int, int>, next: nat): (r: Result<(Reorder, nat)>)
    ensures r.Ok? <==> IsPos2AxisMap(m, Size(td))
    ensures !r.Ok? ==> r.error == InvalidPermutation
    ensures r.Ok? ==>
      var (rec, next') := r.value;
      rec.inDomain == td && IsReorderOf(rec)
      && (forall k :: 0 <= k < Size(td) ==> rec.pos2axis[k] == m[k])
      && next <= rec.outDomain.id < next'
    ensures r.Ok? && IdsBelow(td, next) ==>
      IdsBelow(r.value.0.outDomain, r.value.1) && r.value.0.outDomain != td
  {
    if !IsPos2AxisMap(m, Size(td)) then Err(InvalidPermutation)
    else
      var p := seq(Size(td), k requires 0 <= k < Size(td) => m[k]);
      Ok((Reorder(TensorDomain(next, Permute(td.axes, p)), td, p), next + 1))
  }

  /** The map that sends every old position back to its new position. */
  function InverseMap(m: map<int, int>, n: nat): (inv: map<int, int>)
    requires IsPos2AxisMap(m, n)
    ensures IsPos2AxisMap(inv, n)
    ensures forall k :: 0 <= k < n ==> inv[m[k]] == k && m[inv[k]] == k
  {
    var inv := map k | k in m :: m[k] := k;
    InverseMapIsInverse(m, n, inv);
    inv
  }

  lemma InverseMapIsInverse(m: map<int, int>, n: nat, inv: map<int, int>)
    requires IsPos2AxisMap(m, n)
    requires inv == map k | k in m :: m[k] := k
    ensures IsPos2AxisMap(inv, n)
    ensures forall k :: 0 <= k < n ==> inv[m[k]] == k && m[inv[k]] == k
  {
    forall k | k in m
      ensures m[k] in inv && inv[m[k]] == k
    {
    }
    forall v | v in inv
      ensures 0 <= v < n && inv[v] in m && m[inv[v]] == v
    {
      var k :| k in m && m[k] == v;
      assert inv[v] == k;
    }
    forall v | 0 <= v < n
      ensures v in inv
    {
      assert v in m.Values;
      var k :| k in m && m[k] == v;
    }
    forall k | 0 <= k < n
      ensures k in inv.Values
    {
      assert inv[m[k]] == k;
    }
  }

  /** Reordering by a map and then by its inverse gives back the original axes, in order. */
  lemma {:induction false} ReorderRoundTrip(td: TensorDomain, m: map<int, int>, next: nat)
    requires IsPos2AxisMap(m, Size(td))
    ensures ReorderDomain(td, m, next).Ok?
    ensures
      var (rec, next') := ReorderDomain(td, m, next).value;
      var back := ReorderDomain(rec.outDomain, InverseMap(m, Size(td)), next');
      back.Ok? && back.value.0.outDomain.axes == td.axes
  {
    var (rec, next') := ReorderDomain(td, m, next).value;
    var inv := InverseMap(m, Size(td));
    var back := ReorderDomain(rec.outDomain, inv, next');
    assert back.Ok?;
    var out := back.value.0.outDomain;
    forall k | 0 <= k < Size(td)
      ensures out.axes[k] == td.axes[k]
    {
      calc {
        out.axes[k];
        rec.outDomain.axes[inv[k]];
        td.axes[m[inv[k]]];
        td.axes[k];
      }
    }
  }

  /** The identity map on [0, n). */
  function IdentityMap(n: nat): (m: map<int, int>)
    ensures forall k :: k in m <==> 0 <= k < n
    ensures forall k :: k in m ==> m[k] == k
    ensures IsPos2AxisMap(m, n)
  {
    var m := if n == 0 then map[] else IdentityMap(n - 1)[n - 1 := n - 1];
    forall v | 0 <= v < n
      ensures v in m.Values
    {
      assert m[v] == v;
    }
    m
  }

  /** Reordering by the identity map yields a domain `same_as` (indeed axis for axis identical to) the input. */
  lemma ReorderIdentity(td: TensorDomain, next: nat)
    ensures ReorderDomain(td, IdentityMap(Size(td)), next).Ok?
    ensures
      var out := ReorderDomain(td, IdentityMap(Size(td)), next).value.0.outDomain;
      out.axes == td.axes && DomainSameAs(out, td)
  {
    var out := ReorderDomain(td, IdentityMap(Size(td)), next).value.0.outDomain;
    assert out.axes == td.axes;
    DomainSameAsIsEquivalence(td, td, td);
    DomainSameAsIgnoresIdentity(td, td, out.id, td.id);
  }

  /** Reordering [I, J, K] with new position 0 from old 2, 1 from 1 and 2 from 0 yields [K, J, I]. */
  lemma ReorderReversesThreeAxes(i: IterDomain, j: IterDomain, k: IterDomain, id: nat, next: nat)
    ensures
      var r := ReorderDomain(TensorDomain(id, [i, j, k]), map[0 := 2, 1 := 1, 2 := 0], next);
      r.Ok? && r.value.0.outDomain.axes == [k, j, i]
  {
    var m := map[0 := 2, 1 := 1, 2 := 0];
    assert 0 in m.Values && 1 in m.Values && 2 in m.Values by {
      assert m[2] == 0 && m[1] == 1 && m[0] == 2;
    }
    var r := ReorderDomain(TensorDomain(id, [i, j, k]), m, next);
    assert r.Ok?;
    assert r.value.0.outDomain.axes == [k, j, i];
  }

  /** Two well-formed Reorder records that `same_as` as written accepts although their maps differ. */
  predicate MapsDifferButSameAs(a: Reorder, b: Reorder) {
    IsReorderOf(a) && IsReorderOf(b) && ReorderSameAs(a, b) && a.pos2axis != b.pos2axis
  }

  /**
   * Two Reorder records may be `same_as` while their maps differ: over a domain that
   * holds any axis node `x` twice, the identity and the swap give outputs that are
   * `same_as` by reflexivity alone.
   */
  lemma ReorderSameAsMissesPermutation(x: IterDomain, i: nat, j: nat, k: nat)
    ensures
      var td := TensorDomain(i, [x, x]);
      MapsDifferButSameAs(Reorder(TensorDomain(j, [x, x]), td, [0, 1]), Reorder(TensorDomain(k, [x, x]), td, [1, 0]))
  {
    var td := TensorDomain(i, [x, x]);
    var a := Reorder(TensorDomain(j, [x, x]), td, [0, 1]);
    var b := Reorder(TensorDomain(k, [x, x]), td, [1, 0]);
    IterSameAsIsEquivalence(x, x, x);
    DomainSameAsIff(a.outDomain, b.outDomain);
    DomainSameAsIff(td, td);
    assert IsReorderOf(a) && IsReorderOf(b);
    assert a.pos2axis[0] != b.pos2axis[0];
  }

  /** The strict comparison is an equivalence. */
  lemma ReorderSameAsStrictIsEquivalence(a: Reorder, b: Reorder, c: Reorder)
    ensures ReorderSameAsStrict(a, a)
    ensures ReorderSameAsStrict(a, b) ==> ReorderSameAsStrict(b, a)
    ensures ReorderSameAsStrict(a, b) && ReorderSameAsStrict(b, c) ==> ReorderSameAsStrict(a, c)
  {
    DomainSameAsIsEquivalence(a.outDomain, b.outDomain, c.outDomain);
    DomainSameAsIsEquivalence(a.inDomain, b.inDomain, c.inDomain);
  }

  /** No two distinct positions of `td` hold axes that are `same_as`. */
  predicate AxesDistinguishable(td: TensorDomain) {
    forall j, k :: 0 <= j < Size(td) && 0 <= k < Size(td) && j != k ==> !IterSameAs(td.axes[j], td.axes[k])
  }

  /**
   * When the input axes are pairwise distinguishable, agreeing input and output
   * domains do fix the map, so the comparison as written is then as strict as intended.
   */
  lemma ReorderSameAsDeterminesMap(a: Reorder, b: Reorder)
    requires IsReorderOf(a) && IsReorderOf(b) && ReorderSameAs(a, b)
    requires AxesDistinguishable(a.inDomain)
    ensures a.pos2axis == b.pos2axis
  {
    DomainSameAsIff(a.outDomain, b.outDomain);
    DomainSameAsIff(a.inDomain, b.inDomain);
    forall k | 0 <= k < |a.pos2axis|
      ensures a.pos2axis[k] == b.pos2axis[k]
    {
      var pa, pb := a.pos2axis[k], b.pos2axis[k];
      assert Axis(a.outDomain, k) == a.outDomain.axes[k];
      assert Axis(b.outDomain, k) == b.outDomain.axes[k];
      assert Axis(a.inDomain, pb) == a.inDomain.axes[pb];
      assert Axis(b.inDomain, pb) == b.inDomain.axes[pb];
      // a.in[pa] == a.out[k] ~ b.out[k] == b.in[pb] ~ a.in[pb]
      IterSameAsIsEquivalence(a.outDomain.axes[k], b.outDomain.axes[k], a.inDomain.axes[pb]);
      IterSameAsIsEquivalence(a.inDomain.axes[pb], b.inDomain.axes[pb], b.inDomain.axes[pb]);
    }
  }

  // ---------------------------------------------------------------------------
  // Split and Merge
  // ---------------------------------------------------------------------------

  /** Two axes share the reduction flag and the parallel type. */
  predicate SameKind(x: IterDomain, y: IterDomain) {
    x.isReduction == y.isReduction && x.parallelMethod == y.parallelMethod
  }

  /**
   * The layout a Split record describes: the split axis is replaced by an outer and an
   * inner axis of the same kind, the inner one of extent `factor`, and every other
   * axis is kept in place as the same node.
   */
  predicate IsSplitOf(s: Split) {
    var a := s.axis;
    0 <= a < Size(s.inDomain)
    && Size(s.outDomain) == Size(s.inDomain) + 1
    && (forall k :: 0 <= k < a ==> s.outDomain.axes[k] == s.inDomain.axes[k])
    && (forall k :: a < k < Size(s.inDomain) ==> s.outDomain.axes[k + 1] == s.inDomain.axes[k])
    && SameKind(s.outDomain.axes[a], s.inDomain.axes[a])
    && SameKind(s.outDomain.axes[a + 1], s.inDomain.axes[a])
    && s.outDomain.axes[a + 1].extent == s.factor
  }

  /**
   * `split` on a domain: axis `axis` (negative counts from the end) is split by the
   * constant `factor`. The factor node, the outer axis with its symbolic extent, the
   * inner axis and the output domain take identities `next` to `next + 4`.
   */
  function SplitDomain(td: TensorDomain, axis: int, factor: int, next: nat): (r: Result<(Split, nat)>)
    ensures r.Ok? <==> -(Size(td) as int) <= axis < Size(td)
    ensures !r.Ok? ==> r.error == IndexError
    ensures r.Ok? ==>
      var (s, next') := r.value;
      s.inDomain == td && s.axis == WrapIndex(axis, Size(td)) && IsSplitOf(s)
      && s.factor.value == Some(factor)
      && s.outDomain.axes[s.axis].extent.value.None?
      && next <= s.factor.id < next' && next <= s.outDomain.axes[s.axis].extent.id < next'
      && next <= s.outDomain.axes[s.axis].id < next' && next <= s.outDomain.axes[s.axis + 1].id < next'
      && next <= s.outDomain.id < next'
    ensures r.Ok? && IdsBelow(td, next) ==>
      var (s, next') := r.value;
      var outer, inner := s.outDomain.axes[s.axis], s.outDomain.axes[s.axis + 1];
      IdsBelow(s.outDomain, next') && s.outDomain != td && outer != inner
      && forall k :: 0 <= k < Size(td) ==>
           outer != td.axes[k] && inner != td.axes[k]
           && outer.extent != td.axes[k].extent && s.factor != td.axes[k].extent
  {
    if !(0 <= WrapIndex(axis, Size(td)) < Size(td)) then Err(IndexError)
    else
      var a := WrapIndex(axis, Size(td));
      var original := td.axes[a];
      var f := Int(next, Some(factor));
      var outer := IterDomain(next + 2, Int(next + 1, None), original.parallelMethod, original.isReduction);
      var inner := IterDomain(next + 3, f, original.parallelMethod, original.isReduction);
      var out := TensorDomain(next + 4, td.axes[..a] + [outer, inner] + td.axes[a + 1..]);
      Ok((Split(out, td, a, f), next + 5))
  }

  /** Axes `a` and `a + 1` of `td` exist, where `a` is `axis` after wrapping. */
  predicate MergeAxesExist(td: TensorDomain, axis: int) {
    0 <= WrapIndex(axis, Size(td)) && WrapIndex(axis, Size(td)) + 1 < Size(td)
  }

  /**
   * The layout a Merge record describes: the merged pair of axes, which share their
   * kind, is replaced by one axis of that kind, and every other axis is kept in place
   * as the same node.
   */
  predicate IsMergeOf(m: Merge) {
    var a := m.axis;
    0 <= a && a + 1 < Size(m.inDomain)
    && SameKind(m.inDomain.axes[a], m.inDomain.axes[a + 1])
    && Size(m.outDomain) + 1 == Size(m.inDomain)
    && (forall k :: 0 <= k < a ==> m.outDomain.axes[k] == m.inDomain.axes[k])
    && (forall k :: a + 1 < k < Size(m.inDomain) ==> m.outDomain.axes[k - 1] == m.inDomain.axes[k])
    && SameKind(m.outDomain.axes[a], m.inDomain.axes[a])
  }

  /**
   * `merge` on a domain: axis `axis` (negative counts from the end) is merged with the
   * axis after it. The merged axis's symbolic extent, the merged axis and the output
   * domain take identities `next` to `next + 2`.
   */
  function MergeDomain(td: TensorDomain, axis: int, next: nat): (r: Result<(Merge, nat)>)
    ensures r.Ok? <==>
      MergeAxesExist(td, axis)
      && SameKind(td.axes[WrapIndex(axis, Size(td))], td.axes[WrapIndex(axis, Size(td)) + 1])
    ensures r.Err? ==> (r.error == IndexError <==> !MergeAxesExist(td, axis))
    ensures r.Err? ==> r.error in {IndexError, IncompatibleAxes}
    ensures r.Ok? ==>
      var (m, next') := r.value;
      m.inDomain == td && m.axis == WrapIndex(axis, Size(td)) && IsMergeOf(m)
      && m.outDomain.axes[m.axis].extent.value.None?
      && next <= m.outDomain.axes[m.axis].extent.id < next'
      && next <= m.outDomain.axes[m.axis].id < next'
      && next <= m.outDomain.id < next'
    ensures r.Ok? && IdsBelow(td, next) ==>
      var (m, next') := r.value;
      var merged := m.outDomain.axes[m.axis];
      IdsBelow(m.outDomain, next') && m.outDomain != td
      && forall k :: 0 <= k < Size(td) ==> merged != td.axes[k] && merged.extent != td.axes[k].extent
  {
    if !MergeAxesExist(td, axis) then Err(IndexError)
    else
      var a := WrapIndex(axis, Size(td));
      var first, second := td.axes[a], td.axes[a + 1];
      if !SameKind(first, second) then Err(IncompatibleAxes)
      else
        var merged := IterDomain(next + 1, Int(next, None), first.parallelMethod, first.isReduction);
        var out := TensorDomain(next + 2, td.axes[..a] + [merged] + td.axes[a + 2..]);
        Ok((Merge(out, td, a), next + 3))
  }

  /**
   * Merging the two axes a split produced succeeds and restores the input's shape:
   * the same number of axes, every other axis the same node as before, and the merged
   * axis of the split axis's kind.
   */
  lemma {:induction false} MergeAfterSplit(td: TensorDomain, axis: int, factor: int, next: nat)
    requires -(Size(td) as int) <= axis < Size(td)
    ensures SplitDomain(td, axis, factor, next).Ok?
    ensures
      var (s, next') := SplitDomain(td, axis, factor, next).value;
      var r := MergeDomain(s.outDomain, s.axis, next');
      r.Ok?
      && Size(r.value.0.outDomain) == Size(td)
      && (forall k :: 0 <= k < Size(td) && k != s.axis ==> r.value.0.outDomain.axes[k] == td.axes[k])
      && SameKind(r.value.0.outDomain.axes[s.axis], td.axes[s.axis])
  {
    var (s, next') := SplitDomain(td, axis, factor, next).value;
    var a := s.axis;
    assert SameKind(s.outDomain.axes[a], s.outDomain.axes[a + 1]);
    var r := MergeDomain(s.outDomain, a, next');
    assert r.Ok?;
    var m := r.value.0;
    forall k | 0 <= k < Size(td) && k != a
      ensures m.outDomain.axes[k] == td.axes[k]
    {
      if k < a {
        assert m.outDomain.axes[k] == s.outDomain.axes[k];
      } else {
        assert m.outDomain.axes[k] == s.outDomain.axes[k + 1];
      }
    }
  }
}
