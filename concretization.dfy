/** The array-concretizing solver: it finds every index expression of the
    query's reads, asks the backend for one 32-bit witness per index (split
    into bytes, with the requested symbolic arrays pinned to zero), then asks
    the backend again with the original query plus `index == witness` for
    every index, and hands that answer back. */
module Concretization {
  import opened Exprs
  import opened Bytes
  import opened Collectors
  import opened Backend

  /** Assertions of the source that fail, ending the run. */
  datatype Violation =
    | Unimplemented        // computeTruth, computeValidity, computeValue
    | IndexWidth           // a collected index is not 32 bits wide
    | OutputBufferCount    // the side query did not return exactly one buffer
    | OutputBufferSize     // the side query's buffer is not 4 bytes per index

  /** How `computeInitialValues` ends: it returns its success flag, the
      caller's value buffers and `hasSolution`, or an assertion stops it. */
  datatype Outcome =
    | Returned(success: bool, values: seq<seq<bv8>>, hasSolution: bool)
    | Aborted(violation: Violation)

  // ---------------------------------------------------------------------------
  // The index-evaluation array

  function DecimalDigits(n: nat): string
    decreases n
  {
    var d := ['0', '1', '2', '3', '4', '5', '6', '7', '8', '9'][n % 10];
    if n < 10 then [d] else DecimalDigits(n / 10) + [d]
  }

  /** The symbolic array that carries the side query's answer: named after the
      index count only, 4 bytes per index, 32-bit domain, 8-bit range. */
  function IndexEvalArray(n: nat): Array {
    Array("index_evaluation_" + DecimalDigits(n), 4 * n, Int32, Int8, true, [])
  }

  // ---------------------------------------------------------------------------
  // The side constraint set

  /** Byte `j` of index number `k` equals byte `4k+j` of the index-evaluation array. */
  function ByteEquality(idx: Expr, k: nat, j: nat, eval: Array): Expr {
    Eq(Extract(idx, 8 * j, Int8), ReadAt(eval, Constant(Int32, 4 * k + j)))
  }

  /** The first `m` byte equalities of index number `k`. */
  function ByteEqualities(idx: Expr, k: nat, eval: Array, m: nat): seq<Expr> {
    if m == 0 then [] else ByteEqualities(idx, k, eval, m - 1) + [ByteEquality(idx, k, m - 1, eval)]
  }

  /** Four byte equalities per index, in index order. */
  function IndexEqualities(indices: seq<Expr>, eval: Array): seq<Expr> {
    if indices == [] then []
    else
      var n := |indices| - 1;
      IndexEqualities(indices[..n], eval) + ByteEqualities(indices[n], n, eval, 4)
  }

  /** Byte `i` of `obj` equals 0. */
  function ZeroPin(obj: Array, i: nat): Expr {
    Eq(ReadAt(obj, Constant(obj.domain, i)), Constant(obj.range, 0))
  }

  /** Zero pins of the first `m` bytes of `obj`. */
  function PinBytes(obj: Array, m: nat): seq<Expr> {
    if m == 0 then [] else PinBytes(obj, m - 1) + [ZeroPin(obj, m - 1)]
  }

  /** One pin per byte of a symbolic array; nothing for a constant one. */
  function ArrayPins(obj: Array): seq<Expr> {
    if obj.isSymbolic then PinBytes(obj, obj.size) else []
  }

  function ZeroPins(objects: seq<Array>): seq<Expr> {
    if objects == [] then [] else ZeroPins(objects[..|objects| - 1]) + ArrayPins(objects[|objects| - 1])
  }

  function SideConstraints(indices: seq<Expr>, objects: seq<Array>): seq<Expr> {
    IndexEqualities(indices, IndexEvalArray(|indices|)) + ZeroPins(objects)
  }

  /** The side query: the side constraints with the goal `false`. */
  function SideQuery(indices: seq<Expr>, objects: seq<Array>): Query {
    Query(SideConstraints(indices, objects), False())
  }

  lemma {:induction false} ByteEqualitiesAt(idx: Expr, k: nat, eval: Array, m: nat)
    ensures |ByteEqualities(idx, k, eval, m)| == m
    ensures forall j :: 0 <= j < m ==> ByteEqualities(idx, k, eval, m)[j] == ByteEquality(idx, k, j, eval)
  {
    if m > 0 {
      ByteEqualitiesAt(idx, k, eval, m - 1);
    }
  }

  /** There are exactly `4n` index equalities, and equality number `4k+j`
      ties byte `j` of index `k` to position `4k+j` of the evaluation array. */
  lemma {:induction false} IndexEqualitiesAt(indices: seq<Expr>, eval: Array)
    ensures |IndexEqualities(indices, eval)| == 4 * |indices|
    ensures forall k, j :: 0 <= k < |indices| && 0 <= j < 4 ==>
              IndexEqualities(indices, eval)[4 * k + j] == ByteEquality(indices[k], k, j, eval)
  {
    if indices != [] {
      var n := |indices| - 1;
      IndexEqualitiesAt(indices[..n], eval);
      ByteEqualitiesAt(indices[n], n, eval, 4);
      var prefix := IndexEqualities(indices[..n], eval);
      var block := ByteEqualities(indices[n], n, eval, 4);
      forall k, j | 0 <= k < |indices| && 0 <= j < 4
        ensures (prefix + block)[4 * k + j] == ByteEquality(indices[k], k, j, eval)
      {
        if k < n {
          assert indices[..n][k] == indices[k];
        } else {
          assert (prefix + block)[4 * k + j] == block[j];
        }
      }
    }
  }

  lemma {:induction false} PinBytesAt(obj: Array, m: nat)
    ensures |PinBytes(obj, m)| == m
    ensures forall i :: 0 <= i < m ==> PinBytes(obj, m)[i] == ZeroPin(obj, i)
  {
    if m > 0 {
      PinBytesAt(obj, m - 1);
    }
  }

  /** The pins follow the objects' order: pinning `a + b` is pinning `a`, then `b`. */
  lemma {:induction false} ZeroPinsAppend(a: seq<Array>, b: seq<Array>)
    ensures ZeroPins(a + b) == ZeroPins(a) + ZeroPins(b)
    decreases |b|
  {
    if b == [] {
      assert a + b == a;
    } else {
      var n := |b| - 1;
      assert (a + b)[..|a + b| - 1] == a + b[..n];
      ZeroPinsAppend(a, b[..n]);
    }
  }

  /** The symbolic arrays of `objects`, in order. */
  function SymbolicOnly(objects: seq<Array>): seq<Array> {
    if objects == [] then []
    else
      var last := objects[|objects| - 1];
      SymbolicOnly(objects[..|objects| - 1]) + if last.isSymbolic then [last] else []
  }

  /** Constant arrays among the requested objects add no pins. */
  lemma {:induction false} ZeroPinsOnlySymbolic(objects: seq<Array>)
    ensures ZeroPins(objects) == ZeroPins(SymbolicOnly(objects))
  {
    if objects != [] {
      var init := objects[..|objects| - 1];
      var last := objects[|objects| - 1];
      ZeroPinsOnlySymbolic(init);
      ZeroPinsAppend(SymbolicOnly(init), if last.isSymbolic then [last] else []);
      assert ZeroPins([last]) == ArrayPins(last) by {
        assert [last][..0] == [];
      }
      assert ZeroPins([]) == [];
    }
  }

  /** A zero pin of byte `i` of a symbolic array listed in `objects`. */
  ghost predicate PinsRequested(c: Expr, objects: seq<Array>) {
    exists obj, i :: obj in objects && obj.isSymbolic && 0 <= i < obj.size && c == ZeroPin(obj, i)
  }

  /** The pins are exactly one per byte of every symbolic requested array. */
  lemma {:induction false} ZeroPinsExactly(objects: seq<Array>)
    ensures forall c :: c in ZeroPins(objects) ==> PinsRequested(c, objects)
    ensures forall obj, i :: obj in objects && obj.isSymbolic && 0 <= i < obj.size ==> ZeroPin(obj, i) in ZeroPins(objects)
  {
    if objects != [] {
      var init := objects[..|objects| - 1];
      var last := objects[|objects| - 1];
      ZeroPinsExactly(init);
      PinBytesAt(last, last.size);
      assert objects == init + [last];
      forall c | c in ZeroPins(objects) ensures PinsRequested(c, objects) {
        if c in ZeroPins(init) {
          var obj, i :| obj in init && obj.isSymbolic && 0 <= i < obj.size && c == ZeroPin(obj, i);
          assert obj in objects;
        } else {
          var i :| 0 <= i < last.size && ArrayPins(last)[i] == c;
          assert last in objects;
        }
      }
      forall obj, i | obj in objects && obj.isSymbolic && 0 <= i < obj.size
        ensures ZeroPin(obj, i) in ZeroPins(objects)
      {
        if obj != last {
          assert obj in init;
        } else {
          assert ArrayPins(last)[i] == ZeroPin(obj, i);
        }
      }
    }
  }

  /** The side constraint set: `4n` index equalities first, then the zero pins. */
  lemma SideConstraintsShape(indices: seq<Expr>, objects: seq<Array>)
    ensures var cs := SideConstraints(indices, objects);
            var eval := IndexEvalArray(|indices|);
            4 * |indices| <= |cs| && cs[4 * |indices|..] == ZeroPins(objects) &&
            forall k, j :: 0 <= k < |indices| && 0 <= j < 4 ==> cs[4 * k + j] == ByteEquality(indices[k], k, j, eval)
  {
    var eval := IndexEvalArray(|indices|);
    IndexEqualitiesAt(indices, eval);
    var cs := SideConstraints(indices, objects);
    forall k, j | 0 <= k < |indices| && 0 <= j < 4
      ensures cs[4 * k + j] == ByteEquality(indices[k], k, j, eval)
    {
      assert cs[4 * k + j] == IndexEqualities(indices, eval)[4 * k + j];
    }
  }

  // ---------------------------------------------------------------------------
  // The final query

  /** `index == witness` for every index, in index order. */
  function IndexPins(indices: seq<Expr>, witnesses: seq<bv32>): seq<Expr>
    requires |indices| <= |witnesses|
  {
    if indices == [] then []
    else
      var n := |indices| - 1;
      IndexPins(indices[..n], witnesses) + [Eq(indices[n], Constant(Int32, witnesses[n] as nat))]
  }

  /** The original constraints, then the index pins; the original goal. */
  function FinalQuery(query: Query, indices: seq<Expr>, witnesses: seq<bv32>): Query
    requires |indices| <= |witnesses|
  {
    Query(query.constraints + IndexPins(indices, witnesses), query.expr)
  }

  lemma {:induction false} IndexPinsAt(indices: seq<Expr>, witnesses: seq<bv32>)
    requires |indices| <= |witnesses|
    ensures |IndexPins(indices, witnesses)| == |indices|
    ensures forall k :: 0 <= k < |indices| ==>
              IndexPins(indices, witnesses)[k] == Eq(indices[k], Constant(Int32, witnesses[k] as nat))
  {
    if indices != [] {
      var n := |indices| - 1;
      IndexPinsAt(indices[..n], witnesses);
    }
  }

  /** The final query keeps the original constraints in order, adds exactly one
      pin per index in index order, and keeps the original goal. */
  lemma FinalQueryShape(query: Query, indices: seq<Expr>, witnesses: seq<bv32>)
    requires |indices| <= |witnesses|
    ensures var fq := FinalQuery(query, indices, witnesses);
            fq.expr == query.expr &&
            |fq.constraints| == |query.constraints| + |indices| &&
            fq.constraints[..|query.constraints|] == query.constraints &&
            forall k :: 0 <= k < |indices| ==>
              fq.constraints[|query.constraints| + k] == Eq(indices[k], Constant(Int32, witnesses[k] as nat))
  {
    IndexPinsAt(indices, witnesses);
  }

  /** Byte-split round trip at the level of constraints: when the side answer's
      bytes satisfy the byte equalities for index values `xs`, the final query
      pins every index to exactly its value in `xs`. */
  lemma PinsFromSatisfyingBuffer(query: Query, indices: seq<Expr>, buf: seq<bv8>, xs: seq<bv32>)
    requires |xs| == |indices| && |buf| == 4 * |indices|
    requires forall k, j :: 0 <= k < |xs| && 0 <= j < 4 ==> buf[4 * k + j] == ByteOf(xs[k], j)
    ensures |Witnesses(buf, |indices|)| == |indices|
    ensures FinalQuery(query, indices, Witnesses(buf, |indices|)) == FinalQuery(query, indices, xs)
  {
    WitnessesRoundTrip(buf, xs);
  }

  /** With no index to pin, the final query is the caller's query. */
  lemma NoIndicesFinalQuery(query: Query)
    ensures FinalQuery(query, [], []) == query
  {
    assert query.constraints + [] == query.constraints;
  }

  // ---------------------------------------------------------------------------
  // The loops of computeInitialValues

  /** `std::vector indices(results.begin(), results.end())`: the set's
      elements, once each, in an order the model leaves open. */
  method Enumerate(s: set<Expr>) returns (r: seq<Expr>)
    ensures Distinct(r) && Elems(r) == s
  {
    r := [];
    var rest := s;
    while rest != {}
      invariant Distinct(r) && Elems(r) + rest == s && Elems(r) !! rest
      decreases |rest|
    {
      var x :| x in rest;
      r := r + [x];
      rest := rest - {x};
    }
  }

  /** The width assertion over every collected index. */
  method AllWidth32(indices: seq<Expr>) returns (ok: bool)
    ensures ok <==> forall x :: x in indices ==> Width(x) == Int32
  {
    for i := 0 to |indices|
      invariant forall k :: 0 <= k < i ==> Width(indices[k]) == Int32
    {
      if Width(indices[i]) != Int32 {
        return false;
      }
    }
    return true;
  }

  /** The nested loops that push the side constraints. */
  method BuildSideConstraints(indices: seq<Expr>, objects: seq<Array>, eval: Array)
    returns (cs: seq<Expr>)
    requires eval == IndexEvalArray(|indices|)
    ensures cs == SideConstraints(indices, objects)
  {
    cs := PushIndexEqualities(indices, eval);
    cs := PushAllZeroPins(cs, objects);
  }

  /** The loop over the indices. */
  method PushIndexEqualities(indices: seq<Expr>, eval: Array) returns (cs: seq<Expr>)
    ensures cs == IndexEqualities(indices, eval)
  {
    cs := [];
    for i := 0 to |indices|
      invariant cs == IndexEqualities(indices[..i], eval)
    {
      ghost var prefix := indices[..i + 1];
      assert prefix[..i] == indices[..i] && prefix[i] == indices[i];
      assert IndexEqualities(prefix, eval) == IndexEqualities(indices[..i], eval) + ByteEqualities(indices[i], i, eval, 4);
      cs := PushByteEqualities(cs, indices[i], i, eval);
    }
    assert indices[..|indices|] == indices;
  }

  /** The loop over the requested objects. */
  method PushAllZeroPins(cs0: seq<Expr>, objects: seq<Array>) returns (cs: seq<Expr>)
    ensures cs == cs0 + ZeroPins(objects)
  {
    cs := cs0;
    for i := 0 to |objects|
      invariant cs == cs0 + ZeroPins(objects[..i])
    {
      ghost var prefix := objects[..i + 1];
      assert prefix[..i] == objects[..i] && prefix[i] == objects[i];
      assert ZeroPins(prefix) == ZeroPins(objects[..i]) + ArrayPins(objects[i]);
      cs := PushZeroPins(cs, objects[i]);
    }
    assert objects[..|objects|] == objects;
  }

  /** The inner loop over the four bytes of index number `k`. */
  method PushByteEqualities(cs0: seq<Expr>, idx: Expr, k: nat, eval: Array) returns (cs: seq<Expr>)
    ensures cs == cs0 + ByteEqualities(idx, k, eval, 4)
  {
    cs := cs0;
    for j := 0 to 4
      invariant cs == cs0 + ByteEqualities(idx, k, eval, j)
    {
      var offset := 8 * j;
      var b := Extract(idx, offset, Int8);
      cs := cs + [Eq(b, ReadAt(eval, Constant(Int32, 4 * k + j)))];
    }
  }

  /** The inner loop over the bytes of a symbolic object. */
  method PushZeroPins(cs0: seq<Expr>, obj: Array) returns (cs: seq<Expr>)
    ensures cs == cs0 + ArrayPins(obj)
  {
    cs := cs0;
    if obj.isSymbolic {
      for i := 0 to obj.size
        invariant cs == cs0 + PinBytes(obj, i)
      {
        cs := cs + [Eq(ReadAt(obj, Constant(obj.domain, i)), Constant(obj.range, 0))];
      }
    }
  }

  /** The original constraints followed by `index == witness` for every index. */
  method BuildFinalConstraints(constraints: seq<Expr>, indices: seq<Expr>, buf: seq<bv8>)
    returns (cs: seq<Expr>)
    requires |buf| == 4 * |indices|
    ensures |Witnesses(buf, |indices|)| == |indices|
    ensures cs == constraints + IndexPins(indices, Witnesses(buf, |indices|))
  {
    ghost var ws := Witnesses(buf, |indices|);
    WitnessesAt(buf, |indices|);
    cs := [];
    for i := 0 to |constraints|
      invariant cs == constraints[..i]
    {
      cs := cs + [constraints[i]];
    }
    assert constraints[..|constraints|] == constraints;
    for i := 0 to |indices|
      invariant cs == constraints + IndexPins(indices[..i], ws)
    {
      var value := DecodeWitness(buf, i);
      assert indices[..i + 1][..i] == indices[..i];
      cs := cs + [Eq(indices[i], Constant(Int32, value as nat))];
    }
    assert indices[..|indices|] == indices;
  }

  // ---------------------------------------------------------------------------
  // The solver

  class ArrayConcretizationSolver {
    /** The decorated solver, owned by this one. */
    const solver: Solver

    constructor (solver: Solver)
      ensures this.solver == solver
    {
      this.solver := solver;
    }

    /** Not supported by this layer: the source asserts false on entry. */
    method ComputeTruth(query: Query) returns (v: Violation)
      ensures v == Unimplemented
    {
      v := Unimplemented;
    }

    /** Not supported by this layer: the source asserts false on entry. */
    method ComputeValidity(query: Query) returns (v: Violation)
      ensures v == Unimplemented
    {
      v := Unimplemented;
    }

    /** Not supported by this layer: the source asserts false on entry. */
    method ComputeValue(query: Query) returns (v: Violation)
      ensures v == Unimplemented
    {
      v := Unimplemented;
    }

    /** The two-phase solve. `indices` is the order in which the collected
        index set was enumerated. */
    method ComputeInitialValues(query: Query, objects: seq<Array>, values: seq<seq<bv8>>,
                                hasSolution: bool)
      returns (outcome: Outcome, ghost indices: seq<Expr>)
      modifies solver
      ensures Distinct(indices) && Elems(indices) == QueryIndices(query)
      ensures solver.status == old(solver.status) && solver.timeout == old(solver.timeout)
      // Scenario: an index is not 32 bits wide; the backend is never reached.
      ensures !(forall x :: x in QueryIndices(query) ==> Width(x) == Int32) ==>
                outcome == Aborted(IndexWidth) && solver.calls == old(solver.calls)
      ensures (forall x :: x in QueryIndices(query) ==> Width(x) == Int32) ==>
        var n := |indices|;
        var sideCall := Call(SideQuery(indices, objects), [IndexEvalArray(n)]);
        var side := solver.answer(sideCall.query, sideCall.objects, [], hasSolution, old(solver.timeout));
        // Side query without a solution: its success flag, values untouched, one call.
        (!side.hasSolution ==>
           outcome == Returned(side.success, values, false) &&
           solver.calls == old(solver.calls) + [sideCall]) &&
        // A side answer of the wrong shape stops the run after one call.
        (side.hasSolution && |side.values| != 1 ==>
           outcome == Aborted(OutputBufferCount) && solver.calls == old(solver.calls) + [sideCall]) &&
        (side.hasSolution && |side.values| == 1 && |side.values[0]| != 4 * n ==>
           outcome == Aborted(OutputBufferSize) && solver.calls == old(solver.calls) + [sideCall]) &&
        // Otherwise the final query is solved and its answer returned verbatim.
        (side.hasSolution && |side.values| == 1 && |side.values[0]| == 4 * n ==>
           var ws := Witnesses(side.values[0], n);
           |ws| == n &&
           var finalCall := Call(FinalQuery(query, indices, ws), objects);
           var final := solver.answer(finalCall.query, objects, values, side.hasSolution, old(solver.timeout));
           outcome == Returned(final.success, final.values, final.hasSolution) &&
           solver.calls == old(solver.calls) + [sideCall, finalCall])
    {
      var indexFinder := new IndexFinder();
      indexFinder.Visit(query.expr);
      for i := 0 to |query.constraints|
        invariant indexFinder.results == Indices(query.expr) + IndicesOfAll(query.constraints[..i])
        invariant unchanged(solver)
      {
        assert query.constraints[..i + 1][..i] == query.constraints[..i];
        indexFinder.Visit(query.constraints[i]);
      }
      assert query.constraints[..|query.constraints|] == query.constraints;
      var idxs := Enumerate(indexFinder.results);
      indices := idxs;

      // `usedObjects` is computed and never used afterwards.
      var objectFinder := new SymbolicObjectFinder();
      objectFinder.Visit(query.expr);
      for i := 0 to |query.constraints|
        invariant objectFinder.Valid()
        invariant objectFinder.objects == CollectAll(CollectObjects([], query.expr), query.constraints[..i])
        invariant unchanged(solver)
      {
        assert query.constraints[..i + 1][..i] == query.constraints[..i];
        objectFinder.Visit(query.constraints[i]);
      }
      assert query.constraints[..|query.constraints|] == query.constraints;
      assert objectFinder.objects == QueryObjects(query);

      var widthsOk := AllWidth32(idxs);
      if !widthsOk {
        outcome := Aborted(IndexWidth);
        return;
      }

      var indexEval := IndexEvalArray(|idxs|);
      var cs := BuildSideConstraints(idxs, objects, indexEval);
      var tempQuery := Query(cs, False());
      var side := solver.ComputeInitialValues(tempQuery, [indexEval], [], hasSolution);
      if !side.hasSolution {
        outcome := Returned(side.success, values, side.hasSolution);
        return;
      }
      if |side.values| != 1 {
        outcome := Aborted(OutputBufferCount);
        return;
      }
      if |side.values[0]| != 4 * |idxs| {
        outcome := Aborted(OutputBufferSize);
        return;
      }

      var newCs := BuildFinalConstraints(query.constraints, idxs, side.values[0]);
      var finalQuery := Query(newCs, query.expr);
      var final := solver.ComputeInitialValues(finalQuery, objects, values, side.hasSolution);
      outcome := Returned(final.success, final.values, final.hasSolution);
    }

    /** Forwarded to the decorated solver. */
    method GetOperationStatusCode() returns (status: int)
      ensures status == solver.status
    {
      status := solver.status;
    }

    /** Forwarded to the decorated solver. */
    method GetConstraintLog(query: Query) returns (log: string)
      ensures log == solver.constraintLog(query)
    {
      log := solver.constraintLog(query);
    }

    /** Forwarded to the decorated solver. */
    method SetCoreSolverTimeout(timeout: int)
      modifies solver
      ensures solver.timeout == timeout
      ensures solver.status == old(solver.status) && solver.calls == old(solver.calls)
    {
      solver.timeout := timeout;
    }
  }
}
