/** The array dumper: a registry, kept across calls, of the arrays the
    constraint sets passed to it read. It records the largest size seen per
    array name and the contents of constant arrays, writes a size file when a
    name is new or its size grows and a contents file when a constant array is
    first seen, and checks that a constant array seen again is unchanged.
    File writes are modelled as records appended to a log. */
module Dumping {
  import opened Exprs
  import opened Collectors

  /** A file write: `array-sizes/<name>` holding a size, or `arrays/<name>` holding bytes. */
  datatype Record = SizeFile(name: string, size: nat) | ContentsFile(name: string, bytes: seq<bv8>)

  /** The registry: `array_lengths`, `constant_arrays`, and the files written so far. */
  datatype Registry = Registry(lengths: map<string, nat>, constants: map<string, seq<bv8>>, log: seq<Record>)

  /** The consistency assertions of a re-sighted constant array. */
  datatype Failure =
    | LengthChanged     // the recorded length is not the array's size
    | ContentsMissing   // no contents are stored under the name
    | ContentsChanged   // a byte differs from the stored one

  datatype StepResult = Done(registry: Registry) | Failed(failure: Failure)

  /** The low 8 bits of a constant value. */
  function LowByte(v: nat): bv8 {
    (v % 256) as bv8
  }

  /** The bytes of a constant array. */
  function ConstantBytes(a: Array): seq<bv8>
    requires a.WellFormed() && !a.isSymbolic
  {
    seq(a.size, i requires 0 <= i < a.size => LowByte(a.constantValues[i]))
  }

  /** What the registry keeps true: stored contents only under recorded names,
      never longer than the recorded length. */
  ghost predicate Consistent(r: Registry) {
    forall n :: n in r.constants ==> n in r.lengths && |r.constants[n]| <= r.lengths[n]
  }

  function Max(x: nat, y: nat): nat {
    if x < y then y else x
  }

  /** `updateSize`: a size file is written and the length recorded when the
      name is new or the size grew. */
  function SizeUpdate(r: Registry, a: Array): Registry {
    if a.name !in r.lengths || a.size > r.lengths[a.name] then
      r.(lengths := r.lengths[a.name := a.size], log := r.log + [SizeFile(a.name, a.size)])
    else r
  }

  /** Every stored byte `i < n` equals the array's byte `i`. */
  predicate MatchesUpTo(data: seq<bv8>, a: Array, n: nat)
    requires a.WellFormed() && !a.isSymbolic && n <= a.size
  {
    forall i :: 0 <= i < n ==> i < |data| && data[i] == LowByte(a.constantValues[i])
  }

  /** Every stored byte `i < a.size` equals the array's byte `i`. */
  predicate Matches(data: seq<bv8>, a: Array)
    requires a.WellFormed() && !a.isSymbolic
  {
    MatchesUpTo(data, a, a.size)
  }

  /** Stored bytes that match a constant array of the recorded length are its bytes. */
  lemma MatchedContents(data: seq<bv8>, a: Array)
    requires a.WellFormed() && !a.isSymbolic && Matches(data, a) && |data| <= a.size
    ensures data == ConstantBytes(a)
  {
    if a.size > 0 {
      var i := a.size - 1;
      assert LowByte(a.constantValues[i]) == LowByte(a.constantValues[i]);
      assert i < |data|;
    }
  }

  /** One iteration of `dumpArrays`' loop over the arrays found. */
  function Step(r: Registry, a: Array): StepResult
    requires a.WellFormed()
  {
    if a.name in r.lengths then
      if a.isSymbolic then Done(SizeUpdate(r, a))
      else if r.lengths[a.name] != a.size then Failed(LengthChanged)
      else if a.name !in r.constants then Failed(ContentsMissing)
      else if !Matches(r.constants[a.name], a) then Failed(ContentsChanged)
      else Done(SizeUpdate(r, a))
    else
      var r1 := SizeUpdate(r, a);
      if a.isSymbolic then Done(r1)
      else
        var data := ConstantBytes(a);
        Done(r1.(constants := r1.constants[a.name := data], log := r1.log + [ContentsFile(a.name, data)]))
  }

  /** The loop over the arrays in the order `order`, stopping at the first failure. */
  function Run(r: Registry, order: seq<Array>): StepResult
    requires forall a :: a in order ==> a.WellFormed()
  {
    if order == [] then Done(r)
    else
      match Run(r, order[..|order| - 1])
      case Failed(f) => Failed(f)
      case Done(r1) => Step(r1, order[|order| - 1])
  }

  /** One more array: the run so far, then one step. */
  lemma RunSnoc(r: Registry, order: seq<Array>, a: Array)
    requires forall x :: x in order ==> x.WellFormed()
    requires a.WellFormed()
    ensures Run(r, order + [a]) == if Run(r, order).Failed? then Run(r, order) else Step(Run(r, order).registry, a)
  {
    assert (order + [a])[..|order|] == order;
  }

  // ---------------------------------------------------------------------------
  // Properties of one step

  /** After `updateSize(a)` the recorded length is the maximum of the previous
      one (if any) and the size; nothing else is recorded, and one size file is
      written exactly when the name was new or the size strictly grew. */
  lemma SizeUpdateIsMax(r: Registry, a: Array)
    ensures var r1 := SizeUpdate(r, a);
            r1.lengths == r.lengths[a.name := if a.name in r.lengths then Max(r.lengths[a.name], a.size) else a.size] &&
            r1.constants == r.constants &&
            r1.log == r.log + if a.name !in r.lengths || a.size > r.lengths[a.name] then [SizeFile(a.name, a.size)] else []
  {
  }

  /** A constant array seen under a recorded name passes exactly when its
      size equals the recorded length, contents are stored and every byte matches. */
  lemma ResightedConstant(r: Registry, a: Array)
    requires a.WellFormed() && !a.isSymbolic && a.name in r.lengths
    ensures Step(r, a).Done? <==>
              r.lengths[a.name] == a.size && a.name in r.constants && Matches(r.constants[a.name], a)
    ensures Step(r, a).Done? ==> Step(r, a).registry == r
  {
  }

  /** A constant array seen for the first time: its size is recorded, its bytes
      stored, and a size file then a contents file are written. */
  lemma FirstConstant(r: Registry, a: Array)
    requires a.WellFormed() && !a.isSymbolic && a.name !in r.lengths
    ensures Step(r, a).Done?
    ensures var r1 := Step(r, a).registry;
            r1.lengths == r.lengths[a.name := a.size] &&
            r1.constants == r.constants[a.name := ConstantBytes(a)] &&
            |r1.constants[a.name]| == a.size &&
            (forall i :: 0 <= i < a.size ==> r1.constants[a.name][i] == LowByte(a.constantValues[i])) &&
            r1.log == r.log + [SizeFile(a.name, a.size), ContentsFile(a.name, ConstantBytes(a))]
  {
  }

  /** A symbolic array never fails, never gets stored contents and only writes a size file. */
  lemma SymbolicOnlySized(r: Registry, a: Array)
    requires a.isSymbolic
    ensures Step(r, a) == Done(SizeUpdate(r, a))
    ensures Step(r, a).registry.constants == r.constants
  {
  }

  /** A step keeps the registry consistent and the recorded lengths never shrink. */
  lemma StepKeeps(r: Registry, a: Array)
    requires a.WellFormed() && Consistent(r)
    ensures Step(r, a).Done? ==>
              var r1 := Step(r, a).registry;
              Consistent(r1) &&
              a.name in r1.lengths && a.size <= r1.lengths[a.name] &&
              (forall n :: n in r.lengths ==> n in r1.lengths && r.lengths[n] <= r1.lengths[n]) &&
              (forall n :: n in r.constants ==> n in r1.constants && r1.constants[n] == r.constants[n])
  {
  }

  // ---------------------------------------------------------------------------
  // Properties of a whole run

  /** Across any sequence of arrays, no recorded length shrinks and every array
      seen has a recorded length at least its size. */
  lemma {:induction false} RunRecordsEveryArray(r: Registry, order: seq<Array>)
    requires forall a :: a in order ==> a.WellFormed()
    requires Consistent(r)
    ensures Run(r, order).Done? ==>
              var r1 := Run(r, order).registry;
              Consistent(r1) &&
              (forall n :: n in r.lengths ==> n in r1.lengths && r.lengths[n] <= r1.lengths[n]) &&
              (forall a :: a in order ==> a.name in r1.lengths && a.size <= r1.lengths[a.name])
  {
    if order != [] {
      var init := order[..|order| - 1];
      var last := order[|order| - 1];
      RunRecordsEveryArray(r, init);
      if Run(r, order).Done? {
        var r0 := Run(r, init).registry;
        StepKeeps(r0, last);
        forall a | a in order
          ensures a.name in Run(r, order).registry.lengths
          ensures a.size <= Run(r, order).registry.lengths[a.name]
        {
          if a != last {
            assert a in init;
          }
        }
      }
    }
  }

  /** Across any sequence of arrays, the stored contents under a constant
      array's name are exactly that array's bytes: once stored, contents never
      change, and a constant array that differs stops the run. */
  lemma {:induction false} RunConstantsAgree(r: Registry, order: seq<Array>)
    requires forall a :: a in order ==> a.WellFormed()
    requires Consistent(r)
    ensures Run(r, order).Done? ==>
              var r1 := Run(r, order).registry;
              forall a :: a in order && !a.isSymbolic ==>
                a.name in r1.constants && r1.constants[a.name] == ConstantBytes(a)
  {
    if order != [] {
      var init := order[..|order| - 1];
      var last := order[|order| - 1];
      RunConstantsAgree(r, init);
      RunRecordsEveryArray(r, init);
      if Run(r, order).Done? {
        var r0 := Run(r, init).registry;
        var r1 := Run(r, order).registry;
        StepKeeps(r0, last);
        assert Run(r, order) == Step(r0, last);
        if !last.isSymbolic && last.name in r0.lengths {
          ResightedConstant(r0, last);
          var data := r0.constants[last.name];
          MatchedContents(data, last);
          assert |data| == last.size;
          assert data == ConstantBytes(last);
        }
        forall a | a in order && !a.isSymbolic
          ensures a.name in r1.constants && r1.constants[a.name] == ConstantBytes(a)
        {
          if a != last {
            assert a in init;
          }
        }
      }
    }
  }

  // ---------------------------------------------------------------------------
  // The dumper

  /** The dumper's registry, kept in its own object rather than in static maps. */
  class ArrayDumper {
    var arrayLengths: map<string, nat>
    var constantArrays: map<string, seq<bv8>>
    var emitted: seq<Record>

    function State(): Registry
      reads this
    {
      Registry(arrayLengths, constantArrays, emitted)
    }

    ghost predicate Valid()
      reads this
    {
      Consistent(State())
    }

    constructor ()
      ensures Valid() && State() == Registry(map[], map[], [])
    {
      arrayLengths := map[];
      constantArrays := map[];
      emitted := [];
    }

    method UpdateSize(a: Array)
      modifies this
      ensures State() == SizeUpdate(old(State()), a)
    {
      if a.name !in arrayLengths || a.size > arrayLengths[a.name] {
        arrayLengths := arrayLengths[a.name := a.size];
        emitted := emitted + [SizeFile(a.name, a.size)];
      }
    }

    /** `dumpArrays`: every array the constraints read, in an order the model
        leaves open (`order`). `ok` is false when an assertion fails. */
    method DumpArrays(constraints: seq<Expr>) returns (ok: bool, ghost order: seq<Array>)
      requires Valid()
      requires forall a :: a in ArraysOfAll(constraints) ==> a.WellFormed()
      modifies this
      ensures Distinct(order) && Elems(order) <= ArraysOfAll(constraints)
      ensures ok ==> Elems(order) == ArraysOfAll(constraints)
      ensures ok ==> Valid() && Run(old(State()), order) == Done(State())
      ensures !ok ==> Run(old(State()), order).Failed?
    {
      var found := ArraysOfAll(constraints);
      ok, order := DumpFound(found);
    }

    /** The loop over the arrays the finder returned. */
    method DumpFound(found: set<Array>) returns (ok: bool, ghost order: seq<Array>)
      requires Valid()
      requires forall a :: a in found ==> a.WellFormed()
      modifies this
      ensures Distinct(order) && Elems(order) <= found
      ensures ok ==> Elems(order) == found
      ensures ok ==> Valid() && Run(old(State()), order) == Done(State())
      ensures !ok ==> Run(old(State()), order).Failed?
    {
      var rest := found;
      ghost var seen: set<Array> := {};
      order := [];
      while rest != {}
        invariant seen == Elems(order) && seen + rest == found && seen !! rest && Distinct(order)
        invariant Valid() && Run(old(State()), order) == Done(State())
        decreases |rest|
      {
        var a :| a in rest;
        ghost var before := State();
        RunSnoc(old(State()), order, a);
        DistinctSnoc(order, a);
        order := order + [a];
        seen := seen + {a};
        ok := DumpArray(a);
        assert Run(old(State()), order) == Step(before, a);
        if !ok {
          return;
        }
        rest := rest - {a};
      }
      ok := true;
    }

    /** The body of `dumpArrays`' loop for one array; `ok` is false when an assertion fails. */
    method DumpArray(a: Array) returns (ok: bool)
      requires Valid() && a.WellFormed()
      modifies this
      ensures ok <==> Step(old(State()), a).Done?
      ensures ok ==> Valid() && State() == Step(old(State()), a).registry
    {
      StepKeeps(State(), a);
      if a.name in arrayLengths {
        // Not a new array: check a constant one against what was stored.
        if !a.isSymbolic {
          if arrayLengths[a.name] != a.size {
            return false;
          }
          if a.name !in constantArrays {
            return false;
          }
          var same := SameContents(constantArrays[a.name], a);
          if !same {
            return false;
          }
        }
        UpdateSize(a);
        return true;
      }
      UpdateSize(a);
      if !a.isSymbolic {
        var data := ReadConstantBytes(a);
        constantArrays := constantArrays[a.name := data];
        emitted := emitted + [ContentsFile(a.name, data)];
      }
      return true;
    }
  }

  /** The loop comparing every byte of a re-sighted constant array with the stored one. */
  method SameContents(data: seq<bv8>, a: Array) returns (same: bool)
    requires a.WellFormed() && !a.isSymbolic
    ensures same <==> Matches(data, a)
  {
    for i := 0 to a.size
      invariant MatchesUpTo(data, a, i)
    {
      var ch := LowByte(a.constantValues[i]);
      if i >= |data| || ch != data[i] {
        assert !MatchesUpTo(data, a, a.size) by {
          assert !(i < |data| && data[i] == LowByte(a.constantValues[i]));
        }
        return false;
      }
    }
    return true;
  }

  /** `data.resize(a->size)` then the loop filling every byte. */
  method ReadConstantBytes(a: Array) returns (data: seq<bv8>)
    requires a.WellFormed() && !a.isSymbolic
    ensures data == ConstantBytes(a)
  {
    data := seq(a.size, _ => 0);
    for i := 0 to a.size
      invariant |data| == a.size
      invariant forall k :: 0 <= k < i ==> data[k] == LowByte(a.constantValues[k])
    {
      data := data[i := LowByte(a.constantValues[i])];
    }
  }
}
