# Array concretization in KLEE's solver chain

This project models two pieces of a KLEE fork.

**The array-concretizing solver.** `ArrayConcretizationSolver` is a decorator in KLEE's solver chain. It serves `computeInitialValues` in two phases.

1. It collects every index expression of the query's reads. This covers the read's own index and the index of every write in the read's update list.
2. It asks the decorated solver for one 32-bit witness per index. The question is a side query whose constraints make bytes `4k..4k+3` of a fresh symbolic array `index_evaluation_<n>` equal the four bytes of index `k`, little-endian. Every byte of every symbolic requested array is pinned to zero, and the goal is `false`.
3. When the side query has a solution, the bytes are recombined into 32-bit values. The caller's constraints are extended with `index == witness` for every index.
4. The extended query is solved for the caller's arrays, and that answer is handed back unchanged.

`computeTruth`, `computeValidity` and `computeValue` are unsupported: they assert false on entry. The status, constraint-log and timeout operations are forwarded to the decorated solver.

**The array dumper.** This is a registry kept across calls. It holds the arrays read by the constraint sets passed to it:

- the largest size seen per array name;
- the bytes of each constant array.

It writes a size file when a name is new or its size grows, and a contents file when a constant array is first seen. It checks that a constant array seen again has not changed.

Modules:

- `Exprs`: arrays, expressions, update lists and queries.
- `Bytes`: the 32-bit split into four bytes and the recombination loop.
- `Collectors`: the two expression visitors `IndexFinder` and `SymbolicObjectFinder`. Each is a class whose methods are proved against a recursive specification function, and lemmas state what those functions collect.
- `Backend`: the decorated solver as a deterministic oracle. It logs every call.
- `Concretization`: the side and final constraint sets as functions with shape lemmas; the loops that build them as methods proved against those functions; and the solver class.
- `Dumping`: the registry as a pure step function with lemmas over whole runs, and the `ArrayDumper` class whose methods are proved against it.

Source assertions are modelled as they behave in a build with assertions enabled. A failing assertion ends the run: `Aborted(...)` for the solver, `ok == false` for the dumper.

## Model

| member | source | states |
|---|---|---|
| Bytes.WordOfSplit | lib/Solver/ArrayConcretizationSolver.cpp:119-163 | recombining the four extracted bytes of any 32-bit value with `value \|= b << 8*j` gives the value back |
| Bytes.SplitOfWord | lib/Solver/ArrayConcretizationSolver.cpp:119-163 | any four bytes are the byte split of the word they recombine into, so split and recombination are inverse bijections |
| Bytes.WitnessesAt | lib/Solver/ArrayConcretizationSolver.cpp:157-163 | a buffer of at least 4n bytes decodes into exactly n witnesses, and witness k is built from bytes 4k..4k+3 |
| Bytes.WitnessesRoundTrip | lib/Solver/ArrayConcretizationSolver.cpp:119-163 | if byte 4k+j of the buffer is byte j of value k for every k and j, decoding the buffer gives back exactly those values |
| Bytes.DecodeWitness | lib/Solver/ArrayConcretizationSolver.cpp:158-163 | the inner byte loop computes the little-endian word of bytes 4k..4k+3 |
| Collectors.IndicesAreReadIndices | lib/Solver/ArrayConcretizationSolver.cpp:25-31 | the indices collected from an expression are exactly the read index, or a write index, of some read the traversal reaches (both directions) |
| Collectors.IndicesOfAllAreReadIndices | lib/Solver/ArrayConcretizationSolver.cpp:99-101 | the same for a sequence of visited expressions |
| Collectors.IndexFinder.constructor | lib/Solver/ArrayConcretizationSolver.cpp:34-35 | a new finder has no results |
| Collectors.IndexFinder.Visit | lib/Solver/ArrayConcretizationSolver.cpp:23-36 | visiting adds exactly the indices of the reachable reads to the result set |
| Collectors.IndexFinder.VisitRead | lib/Solver/ArrayConcretizationSolver.cpp:25-31 | the read hook adds the read's index and every write's index, and nothing else |
| Collectors.CollectObjects | lib/Solver/ArrayConcretizationSolver.cpp:40-53 | the object list only grows by appending, stays duplicate-free, and gains only symbolic arrays |
| Collectors.AddRoot | lib/Solver/ArrayConcretizationSolver.cpp:48-50 | a root is appended only if it is symbolic and not yet listed; the list stays duplicate-free |
| Collectors.CollectNodes | lib/Solver/ArrayConcretizationSolver.cpp:43-46 | visiting the writes' indices and values only appends symbolic arrays and keeps the list duplicate-free |
| Collectors.CollectAll | lib/Solver/ArrayConcretizationSolver.cpp:106-108 | visiting several expressions in turn only appends symbolic arrays and keeps the list duplicate-free |
| Collectors.CollectObjectsExactly | lib/Solver/ArrayConcretizationSolver.cpp:40-53 | after a visit, an array is listed iff it was listed before or it is a symbolic root of a reachable read, including reads inside write indices and values |
| Collectors.CollectNodesExactly | lib/Solver/ArrayConcretizationSolver.cpp:43-46 | the same iff for the arrays reached through an update list's writes |
| Collectors.CollectAllExactly | lib/Solver/ArrayConcretizationSolver.cpp:106-108 | the same iff for a sequence of expressions |
| Collectors.QueryObjectsExactly | lib/Solver/ArrayConcretizationSolver.cpp:104-108 | `usedObjects` is duplicate-free and holds exactly the symbolic arrays read by the goal or the constraints |
| Collectors.NodeArraysBeforeRoot | lib/Solver/ArrayConcretizationSolver.cpp:43-50 | a new symbolic root is listed after every symbolic array that its update list's writes read |
| Collectors.SymbolicObjectFinder.constructor | lib/Solver/ArrayConcretizationSolver.cpp:59-60 | a new finder has an empty list |
| Collectors.SymbolicObjectFinder.Visit | lib/Solver/ArrayConcretizationSolver.cpp:38-61 | visiting turns the list into its specification; the result set stays the set of listed arrays |
| Collectors.SymbolicObjectFinder.VisitRead | lib/Solver/ArrayConcretizationSolver.cpp:40-53 | the read hook visits the writes head first, then lists the root if it is new and symbolic |
| Backend.Solver.ComputeInitialValues | lib/Solver/ArrayConcretizationSolver.cpp:143 | the decorated solver answers as a fixed function of the query, the arrays, the incoming buffers, the incoming `hasSolution` flag and the timeout in force; each call is logged and nothing else changes |
| Concretization.ByteEqualitiesAt | lib/Solver/ArrayConcretizationSolver.cpp:120-124 | the inner loop's equalities are byte j of the index equals byte 4k+j of the evaluation array, for j = 0..3 in order |
| Concretization.IndexEqualitiesAt | lib/Solver/ArrayConcretizationSolver.cpp:119-125 | there are exactly 4n index equalities, and equality 4k+j ties byte j of index k to byte 4k+j of `index_evaluation_<n>` |
| Concretization.PinBytesAt | lib/Solver/ArrayConcretizationSolver.cpp:130-135 | a symbolic array of size s gets exactly s pins, and pin i makes byte i zero |
| Concretization.ZeroPinsAppend | lib/Solver/ArrayConcretizationSolver.cpp:128-137 | the pins follow the order of the requested objects |
| Concretization.ZeroPinsOnlySymbolic | lib/Solver/ArrayConcretizationSolver.cpp:128-137 | constant arrays among the requested objects add no pins |
| Concretization.ZeroPinsExactly | lib/Solver/ArrayConcretizationSolver.cpp:128-137 | every pin zeroes one byte of a requested symbolic array, and every byte of every requested symbolic array is pinned |
| Concretization.SideConstraintsShape | lib/Solver/ArrayConcretizationSolver.cpp:116-137 | the side constraint set is the 4n index equalities followed by the zero pins |
| Concretization.IndexPinsAt | lib/Solver/ArrayConcretizationSolver.cpp:157-166 | one `index == witness` constraint per index, in index order |
| Concretization.FinalQueryShape | lib/Solver/ArrayConcretizationSolver.cpp:153-168 | the final query keeps the caller's constraints as a prefix, adds exactly one pin per index, and keeps the caller's goal |
| Concretization.PinsFromSatisfyingBuffer | lib/Solver/ArrayConcretizationSolver.cpp:119-168 | when the side answer's bytes are the byte split of some index values, the final query pins each index to exactly its value |
| Concretization.NoIndicesFinalQuery | lib/Solver/ArrayConcretizationSolver.cpp:153-168 | with no index, the final query is the caller's query |
| Concretization.Enumerate | lib/Solver/ArrayConcretizationSolver.cpp:102 | the index vector lists each element of the collected set exactly once |
| Concretization.AllWidth32 | lib/Solver/ArrayConcretizationSolver.cpp:111-113 | the width check passes iff every collected index is 32 bits wide |
| Concretization.BuildSideConstraints | lib/Solver/ArrayConcretizationSolver.cpp:118-137 | the loops build exactly the side constraint set |
| Concretization.PushIndexEqualities | lib/Solver/ArrayConcretizationSolver.cpp:119-125 | the outer index loop pushes exactly the index equalities |
| Concretization.PushByteEqualities | lib/Solver/ArrayConcretizationSolver.cpp:120-124 | the byte loop appends the four byte equalities of one index |
| Concretization.PushAllZeroPins | lib/Solver/ArrayConcretizationSolver.cpp:128-137 | the object loop appends exactly the zero pins of the requested objects |
| Concretization.PushZeroPins | lib/Solver/ArrayConcretizationSolver.cpp:129-136 | the byte loop appends the pins of one object, and none for a constant object |
| Concretization.BuildFinalConstraints | lib/Solver/ArrayConcretizationSolver.cpp:153-166 | the final constraint set is the caller's constraints followed by one `index == decoded witness` per index |
| Concretization.ArrayConcretizationSolver.constructor | lib/Solver/ArrayConcretizationSolver.cpp:67-69 | the layer decorates the given solver |
| Concretization.ArrayConcretizationSolver.ComputeTruth | lib/Solver/ArrayConcretizationSolver.cpp:75-79 | always fails the unimplemented assertion |
| Concretization.ArrayConcretizationSolver.ComputeValidity | lib/Solver/ArrayConcretizationSolver.cpp:81-86 | always fails the unimplemented assertion |
| Concretization.ArrayConcretizationSolver.ComputeValue | lib/Solver/ArrayConcretizationSolver.cpp:88-92 | always fails the unimplemented assertion |
| Concretization.ArrayConcretizationSolver.ComputeInitialValues | lib/Solver/ArrayConcretizationSolver.cpp:94-173 | indices are the collected set; a non-32-bit index aborts before any backend call; a side query with no solution returns its success flag with the values untouched; a malformed side answer aborts; otherwise the final query (original constraints + index pins decoded from the side answer) is solved for the caller's arrays, and its answer is returned unchanged after exactly two backend calls; the side call sees the caller's incoming `hasSolution`, the final call the flag the side call left |
| Concretization.ArrayConcretizationSolver.GetOperationStatusCode | lib/Solver/ArrayConcretizationSolver.cpp:175-177 | reports the decorated solver's status |
| Concretization.ArrayConcretizationSolver.GetConstraintLog | lib/Solver/ArrayConcretizationSolver.cpp:179-181 | returns the decorated solver's log text for the query |
| Concretization.ArrayConcretizationSolver.SetCoreSolverTimeout | lib/Solver/ArrayConcretizationSolver.cpp:183-185 | sets the decorated solver's timeout and changes nothing else |
| Dumping.SizeUpdateIsMax | lib/Core/ArrayDumper.cpp:56-65 | the recorded length becomes the maximum of the old length and the size; a size file is written exactly when the name is new or the size strictly grows |
| Dumping.MatchedContents | lib/Core/ArrayDumper.cpp:25-29 | stored bytes that pass the byte comparison and are no longer than the array are exactly the array's bytes |
| Dumping.ResightedConstant | lib/Core/ArrayDumper.cpp:19-34 | a re-sighted constant array passes iff its size equals the recorded length, contents are stored and every byte matches; passing changes nothing |
| Dumping.FirstConstant | lib/Core/ArrayDumper.cpp:36-49 | a new constant array gets its size and low-byte contents recorded, and writes a size file then a contents file |
| Dumping.SymbolicOnlySized | lib/Core/ArrayDumper.cpp:50-52 | a symbolic array never fails, stores no contents, and only updates its size |
| Dumping.StepKeeps | lib/Core/ArrayDumper.cpp:18-53 | one array keeps the registry consistent, never shrinks a length or changes stored contents, and records the array's size |
| Dumping.RunRecordsEveryArray | lib/Core/ArrayDumper.cpp:13-54 | across any sequence of arrays the registry stays consistent, no length shrinks, and every array seen has a recorded length at least its size |
| Dumping.RunConstantsAgree | lib/Core/ArrayDumper.cpp:13-54 | after a successful run, the contents stored under each constant array's name are exactly that array's bytes |
| Dumping.ArrayDumper.constructor | lib/Core/ArrayDumper.cpp:10-11 | the registry starts empty |
| Dumping.ArrayDumper.UpdateSize | lib/Core/ArrayDumper.cpp:56-65 | applies the size update to the registry |
| Dumping.ArrayDumper.DumpArrays | lib/Core/ArrayDumper.cpp:13-54 | visits each array read by the constraints exactly once, in some order; on success the new registry is the run over that order, and on failure that run fails |
| Dumping.ArrayDumper.DumpFound | lib/Core/ArrayDumper.cpp:18-53 | the loop over the found arrays keeps the registry equal to the run over the arrays handled so far |
| Dumping.ArrayDumper.DumpArray | lib/Core/ArrayDumper.cpp:19-52 | the loop body succeeds iff the step succeeds, and then leaves the step's registry |
| Dumping.SameContents | lib/Core/ArrayDumper.cpp:25-29 | the byte comparison loop succeeds iff every byte of the array matches the stored one |
| Dumping.ReadConstantBytes | lib/Core/ArrayDumper.cpp:41-45 | the fill loop produces the array's low bytes, one per element |

## Left out

- The decorated solver has no SMT semantics. It is an oracle that is a fixed function of its inputs, so the model does not prove that the side query's answer satisfies its constraints. `Concretization.PinsFromSatisfyingBuffer` and `Bytes.WitnessesRoundTrip` state what follows when it does.
- Expression construction: `ExtractExpr::create`, `EqExpr::create` and `ReadExpr::create` are modelled as plain constructors. Their simplifications, constant folding among them, are not modelled.
- Integer widths: a constant built with `ConstantExpr::create(i, width)` keeps its unbounded value. Truncation to `width` bits is not modelled.
- `ArrayCache::CreateArray`: the evaluation array is a fixed function of n (name, size 4n, 32-bit domain, 8-bit range, symbolic). The cache's deduplication is not modelled.
- The `ExprVisitor` machinery: visitor result caching is not modelled, and each visit is a structural traversal. A read's only child is its index. `IndexFinder`'s read hook records each write's index but visits neither the write's index nor its value, so the indices of reads nested inside a write's index or value are not collected and not concretized; `Collectors.Indices` follows this.
- `klee::ArrayFinder` is not part of this model. It is taken to return the root array of every read reachable through read indices and write indices and values (`Collectors.ArraysOf`).
- Array identity is value equality of the `Array` datatype, not pointer identity.
- The enumeration order of `std::set` is left open. Every ensures holds for any order.
- Destruction, ownership of the decorated solver, and `createArrayConcretizationSolver` are memory management only.
- Builds without assertions (`NDEBUG`) are not modelled. There, every assertion is skipped: the unsupported operations would forward to the decorated solver, and the index-width check, the buffer-shape checks and the dumper's length, presence and contents checks would all be skipped.
- Backend.Solver.ComputeInitialValues: the status reported by `getOperationStatusCode` is never changed by a call; the model has no status transitions of the backend.
- Concretization.ArrayConcretizationSolver.ComputeInitialValues: `usedObjects` is computed as the source computes it, and never used afterwards. Zero-pinning uses the caller's `objects`. There is no early exit for zero indices: the side query is always issued, and with no index the final query is the caller's query.
- The dumper's file writes are modelled as records appended to a log. Paths, the `out.good()` assertions and stream failures are not modelled, and neither is `klee_warning` output.
- The dumper's two static maps are fields of one `ArrayDumper` object.
- Dumping.SameContents: reading `data[i]` past the stored length is undefined behaviour in the source. It is modelled as a mismatch.
- Dumping.ConstantBytes: `getZExtValue(8)` is modelled as the low 8 bits of each value. Its assertion that the value fits in 8 bits is not modelled.
- The `ArrayDumper::dumpArrays` overload taking a query is declared in `lib/Solver/ArrayDumper.h`. Its definition is not part of this model.
