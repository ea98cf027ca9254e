# Scheduling IR of the fuser, modelled in Dafny

This project models the scheduling intermediate representation declared in
`torch/csrc/jit/fuser/common/tensor.h`: the nodes that describe a tensor's loop axes and
the transformations that reshape those axes before a kernel is generated.

- **IterDomain** — one loop axis: an extent (an integer scalar node), a `ParallelType`
  tag and a reduction flag.
- **TensorDomain** — the ordered axes of a tensor. `axis(i)` accepts negative indices.
- **Tensor** — an element type, an optional domain and optional contiguity metadata.
  `MakeDummyTensor(n)` builds a placeholder Float tensor with `n` serial, non-reduction
  axes over fresh symbolic extents.
- **TensorView** — a tensor seen through a domain, plus the only mutable state in the
  IR: the compute-at binding (producer view, axis), unbound as `(null, -1)`.
- **Split, Merge, Reorder** — records of one transformation each (output domain,
  input domain, parameters), with their `same_as`, and the `split`, `merge` and
  `reorder` entry points over views and tensors.

Every node is an immutable datatype value that carries an `id`, standing for its
identity in the owning graph. Node identity is value equality (`==`), and structural
equality is the `...SameAs` predicates. Axis and domain `same_as` never read the `id`
of an axis or a domain. Identity still enters in two places: through the extent
comparison, where a symbolic extent equals only itself, and through view `same_as`,
which compares the two tensors as nodes. New nodes take identities from a counter
`next`, which each allocating operation takes and returns. When every node of the input
domain has an identity below `next` (`IdsBelow`), the new nodes are provably none of
the input's nodes.
TensorView is a class: its tensor and domain are `const` fields, and its binding fields
are `var`s that only `ComputeAt` assigns.

Modules: `Wrappers` (Option, Result, the error kinds), `Types` (`DataType`,
`ParallelType`), `IterDomains`, `TensorDomains`, `Tensors`, `Transforms`, `TensorViews`.

Modelling choices:

- The extent node `Int` is a constant when it has a value and symbolic otherwise.
  `IntSameAs` takes two constants as equal when their values are equal. A symbolic
  node equals only itself. `Int::same_as` is defined in `ir.h`, which is not part of this
  model. One clause depends on this particular choice: `DummyAxesAreFresh`'s "no two
  placeholder axes are `same_as`". Every other proof uses only the fact that
  `IntSameAs` is an equivalence.
- `Tensor` declares no `same_as` of its own (the TODO at tensor.h:171). So
  `TensorView::same_as` compares tensors with the generic node comparison of `ir.h`.
  The model takes that comparison to be node identity.
- `axis(i)` asserts that the wrapped index is in range. The model makes that a
  precondition, because an assertion failure is fatal and not an error a caller can
  catch.
- `ComputeAt_impl` is only declared in tensor.h. The model checks two things before
  binding: both views have domains, and `0 <= axis <= min` of the two domain sizes.
  It also takes the verdict of the algorithm's own rules as a parameter, `legal`. If any
  check fails, the binding stays as it was.
- The bodies of the Split, Merge and Reorder constructors, and of the free functions,
  are in `tensor.cpp`, which is not part of this model. The model builds the outputs
  as follows:
  - Split replaces the split axis with an outer axis and an inner axis of the same
    kind. The inner extent is the factor node.
  - Merge replaces axes `a` and `a+1` with one axis of their common kind. It fails if
    their reduction flags or parallel types differ.
  - Reorder places the input axes at the positions its map gives.
  - Every axis a transformation does not touch is carried over as the same node.
  - Extents that the real code would compute by arithmetic get fresh symbolic nodes:
    the outer extent of a split and the merged extent.
  - `split` and `merge` wrap negative axis indices the same way `axis()` does.
  - The `reorder` map runs from new position to old position, matching the `pos2axis`
    comment. Reorder rejects a map that is not a bijection on the positions.
- `ParallelType`, `DataType` and `ValType` are declared in headers that are not part of this
  model. Their members are listed as the IR uses them.

## Model

| member | source | states |
|---|---|---|
| `IterDomains.IntSameAsIsEquivalence` | torch/csrc/jit/fuser/common/tensor.h:85 | the extent comparison used by `same_as` is reflexive, symmetric and transitive |
| `IterDomains.IterDomainFromVal` | torch/csrc/jit/fuser/common/tensor.h:69-79 | the constructor from a generic value, as written: it requires only an Int data type and keeps that node's identity (and value) as the extent, with the given tag and flag, whatever the node's kind |
| `IterDomains.IterDomainFromValAcceptsNonScalar` | torch/csrc/jit/fuser/common/tensor.h:74-78 | for every value whose data type is Int but whose kind is not scalar (an IterDomain, for one), the as-written constructor accepts it and takes its node as the extent, while the corrected constructor returns a construction error |
| `IterDomains.IterDomainFromScalar` | torch/csrc/jit/fuser/common/tensor.h:69-79 | the intended check: succeeds iff the value is an integer scalar node, else a construction error, and on success keeps that node as the extent with the given tag and flag |
| `IterDomains.IterSameAsIsStructural` | torch/csrc/jit/fuser/common/tensor.h:81-87 | axis `same_as` holds iff reduction flags, parallel types and extents (by `same_as`) agree, whatever the identities of the two axes |
| `IterDomains.IterSameAsIsEquivalence` | torch/csrc/jit/fuser/common/tensor.h:81-87 | axis `same_as` is reflexive, symmetric and transitive |
| `TensorDomains.WrapIndexInRange` | torch/csrc/jit/fuser/common/tensor.h:140-143 | after the negative-index wrap, the range check admits exactly the indices in `[-size, size)` |
| `TensorDomains.Axis` | torch/csrc/jit/fuser/common/tensor.h:139-145 | a non-negative index `i` yields `domain[i]`, a negative one `domain[size + i]`; indices outside `[-size, size)` are excluded by the assertion |
| `TensorDomains.AxisNegative` | torch/csrc/jit/fuser/common/tensor.h:140-144 | `axis(i)` for `-size <= i < 0` is the same node as `axis(i + size)` |
| `TensorDomains.FirstMismatch` | torch/csrc/jit/fuser/common/tensor.h:131-133 | the early-exit scan finds no mismatch iff every pair of axes from position `i` on is `same_as`, and otherwise returns a position whose axes differ with all earlier ones agreeing |
| `TensorDomains.DomainSameAsIff` | torch/csrc/jit/fuser/common/tensor.h:127-137 | domains of different sizes are never `same_as`; domains of equal size are `same_as` iff `axis(i).same_as(other.axis(i))` for every `i` in `[0, size)` |
| `TensorDomains.DomainSameAsIsEquivalence` | torch/csrc/jit/fuser/common/tensor.h:127-137 | domain `same_as` is reflexive, symmetric and transitive, inheriting these from axis `same_as` |
| `TensorDomains.DomainSameAsIgnoresIdentity` | torch/csrc/jit/fuser/common/tensor.h:127-137 | the identity of a domain plays no part in domain `same_as` |
| `Tensors.NewTensor` | torch/csrc/jit/fuser/common/tensor.h:157-158 | the direct constructor keeps the data type and the (possibly absent) domain and has no contiguity information |
| `Tensors.DummyAxes` | torch/csrc/jit/fuser/common/tensor.h:177-180 | the placeholder axis list has exactly the requested length |
| `Tensors.DummyAxesAreFresh` | torch/csrc/jit/fuser/common/tensor.h:176-184 | every placeholder axis is Serial, non-reduction (the constructor defaults at tensor.h:60-63) and over a symbolic extent; node identities lie in `[next, next + 2n)`; the extents of any two placeholder axes are different nodes, and under the extent comparison no two placeholder axes are `same_as` |
| `Tensors.MakeDummyTensor` | torch/csrc/jit/fuser/common/tensor.h:176-184 | the push-back loop yields a Float tensor without contiguity information whose domain has `ndims` placeholder axes (none when `ndims < 0`), with node identities drawn from `[next, next')` so that every node of the new domain lies below `next'` |
| `TensorViews.TensorView.constructor` | torch/csrc/jit/fuser/common/tensor.h:207-213 | the two-argument constructor keeps tensor and domain and starts unbound, view `null` and axis `-1` |
| `TensorViews.TensorView.OfTensor` | torch/csrc/jit/fuser/common/tensor.h:215-221 | the one-argument constructor takes the tensor's own domain and starts unbound, view `null` and axis `-1` |
| `TensorViews.TensorView.ComputeAt` | torch/csrc/jit/fuser/common/tensor.h:233-240 | succeeds exactly when the compute-at checks pass; on success the binding is `(tv, axis)`, on failure the result is an illegal compute-at error and the old binding is kept; tensor and domain never change |
| `TensorViews.ViewSameAsIsEquivalence` | torch/csrc/jit/fuser/common/tensor.h:226-231 | view `same_as` (same tensor node, `same_as` domains) is reflexive, symmetric and transitive |
| `TensorViews.SplitView` | torch/csrc/jit/fuser/common/tensor.h:379 | `split` over a view fails exactly when the domain split fails, with the same error, and otherwise returns a fresh unbound view of the same tensor over the split domain |
| `TensorViews.SplitTensor` | torch/csrc/jit/fuser/common/tensor.h:380 | `split` over a tensor gives a fresh unbound view of that tensor over the split of its domain, or the split's error |
| `TensorViews.MergeView` | torch/csrc/jit/fuser/common/tensor.h:382 | `merge` over a view fails exactly when the domain merge fails, with the same error, and otherwise returns a fresh unbound view of the same tensor over the merged domain |
| `TensorViews.MergeTensor` | torch/csrc/jit/fuser/common/tensor.h:383 | `merge` over a tensor gives a fresh unbound view of that tensor over the merge of its domain, or the merge's error |
| `TensorViews.ReorderView` | torch/csrc/jit/fuser/common/tensor.h:385 | `reorder` over a view fails exactly when the domain reorder fails, with the same error, and otherwise returns a fresh unbound view of the same tensor over the reordered domain |
| `TensorViews.ReorderTensor` | torch/csrc/jit/fuser/common/tensor.h:386 | `reorder` over a tensor gives a fresh unbound view of that tensor over the reordering of its domain, or the reorder's error |
| `Transforms.SplitSameAsIsEquivalence` | torch/csrc/jit/fuser/common/tensor.h:275-282 | Split records are `same_as` iff out and in domains are `same_as`, the axes are equal and the factors are `same_as`; this is an equivalence |
| `Transforms.MergeSameAsIsEquivalence` | torch/csrc/jit/fuser/common/tensor.h:323-329 | Merge records are `same_as` iff out and in domains are `same_as` and the axes are equal; this is an equivalence |
| `Transforms.SplitDomain` | torch/csrc/jit/fuser/common/tensor.h:250-260 | splitting succeeds iff the axis is in `[-size, size)`, else an index error; the record holds the input, the wrapped axis and a factor node of the given value, and the output replaces that axis with outer and inner axes of its kind, the inner of extent `factor`, keeping every other axis as the same node; new identities are drawn from `[next, next')`, and when the input's nodes all lie below `next` the outer and inner axes, the outer extent and the factor are none of the input's nodes |
| `Transforms.MergeDomain` | torch/csrc/jit/fuser/common/tensor.h:297-305 | merging succeeds iff axes `a` and `a+1` exist and share reduction flag and parallel type; a missing axis is an index error and a kind mismatch an incompatible-axes error; the output has one axis fewer, the merged axis of the common kind and every other axis the same node; when the input's nodes all lie below `next`, the merged axis and its extent are none of the input's nodes |
| `Transforms.MergeAfterSplit` | torch/csrc/jit/fuser/common/tensor.h:250-253 | merging the two axes a split produced always succeeds and restores the input's axis count, every other axis as the same node and the split axis's kind |
| `Transforms.ReorderDomain` | torch/csrc/jit/fuser/common/tensor.h:337-346 | reordering succeeds iff the map is a bijection on `[0, size)`, else an invalid-permutation error; the record's `pos2axis` is the map and `out.axis(k)` is `in.axis(pos2axis[k])` for every `k`; the output domain is a new node when the input's nodes lie below `next` |
| `Transforms.ReorderRoundTrip` | torch/csrc/jit/fuser/common/tensor.h:360-363 | reordering by `pos2axis` and then by its inverse gives back the original axes in order |
| `Transforms.ReorderIdentity` | torch/csrc/jit/fuser/common/tensor.h:337-340 | reordering by the identity map gives the same axes and a domain `same_as` the input |
| `Transforms.ReorderReversesThreeAxes` | torch/csrc/jit/fuser/common/tensor.h:337-340 | reordering `[I, J, K]` by `{0:2, 1:1, 2:0}` gives `[K, J, I]` |
| `Transforms.ReorderSameAsMissesPermutation` | torch/csrc/jit/fuser/common/tensor.h:365-371 | for every axis node `x`, over the input `[x, x]` the identity record and the swap record are both well-formed and have `same_as` in and out domains, yet their `pos2axis` maps differ; the proof needs only reflexivity |
| `Transforms.ReorderSameAsStrictIsEquivalence` | torch/csrc/jit/fuser/common/tensor.h:365-371 | the comparison that also checks `pos2axis` is reflexive, symmetric and transitive |
| `Transforms.ReorderSameAsDeterminesMap` | torch/csrc/jit/fuser/common/tensor.h:366-370 | if the input axes are pairwise not `same_as`, then matching in and out domains do force equal `pos2axis` maps |

## Left out

- `ComputeAt_impl` (tensor.h:196): only its declaration is visible. Its legality rules and its rewrite of the producer's loop nest are reduced to the range check and the opaque `legal` verdict.
- TensorViews.TensorView.ComputeAt: the model checks the axis range itself and fails on a view without a domain. The source leaves both checks to `ComputeAt_impl`.
- The Tensor constructors that adapt a `c10::TensorType` and a JIT `Value` (tensor.h:166-168), and `hasContiguityInfo` / `getContiguityInfo` (tensor.h:172-174): their bodies are not in tensor.h and their argument types are not modelled. The contiguity field exists only to record that the direct constructor leaves it absent.
- Registration of nodes and expressions in the owning `Fusion` and its `origin` lookup: graph plumbing outside this header. Each record's in and out domains are the only producer relation kept.
- Allocation with `new`, the deleted copy and move constructors, and object lifetime: C++ mechanics. Nodes are values with identities drawn from a counter.
- `Int::same_as` and the meaning of extents: `ir.h` is not part of this model. Extents are compared with `IntSameAs`, and no arithmetic on extents is modelled.
- Tensors.DummyAxesAreFresh: the clause that no two placeholder axes are `same_as` depends on the assumed body of `Int::same_as` (constants by value, symbolic nodes by identity), which is in `ir.h` and not part of this model. The clause that the extents are pairwise different nodes does not depend on it.
- Transforms.SplitDomain: does not state that the outer extent is `ceil(extent / factor)`, and it does not reject a non-positive factor. Extent arithmetic is not modelled, and the factor's range is not visible in tensor.h.
- Transforms.MergeDomain: does not state that the merged extent is the product of the two extents, because extent arithmetic is not modelled.
- Transforms.MergeAfterSplit: does not show that the merged extent equals the original one, for the same reason.
- `Reorder::same_as` takes a `const Merge*` parameter (tensor.h:365). This is a slip in the signature. The model compares a Reorder with a Reorder and does not model a comparison across record types.
- The 32-bit width of `int` axis indices and of the compute-at axis: the model uses unbounded integers. No operation here does arithmetic that could overflow at realistic sizes.
- The file `torch/csrc/jit/codegen/cuda/interface.h`: a registry of function pointers for an optional backend, with no logic of its own.

## Findings

| source | as written | input that shows it | evidently intended | confidence | as-written member | corrected member |
|---|---|---|---|---|---|---|
| torch/csrc/jit/fuser/common/tensor.h:365-371 | `Reorder::same_as` compares only the out and in domains, and its comment claims that matching in and out implies matching `pos2axis` | input axes `[x, x]`, the same axis node twice: map `[0, 1]` and map `[1, 0]` both give out `[x, x]`, so in and out are `same_as` while the maps differ | two Reorder records should be `same_as` only when their maps also agree | medium; not executed | `Transforms.ReorderSameAsMissesPermutation` | `Transforms.ReorderSameAsStrictIsEquivalence` |
| torch/csrc/jit/fuser/common/tensor.h:69-79 | `IterDomain(const Val*)` asserts only `isVal()` and `getDataType() == DataType::Int`, then `static_cast`s the value to `const Int*` | an IterDomain node (a value of data type Int, tensor.h:64) passed as the size | only an integer scalar node should be accepted as an extent | medium; not executed | `IterDomains.IterDomainFromValAcceptsNonScalar` | `IterDomains.IterDomainFromScalar` |
