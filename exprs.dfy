/** The expression and array data model the solver layer consumes.
    Factory operations (`ConstantExpr::create`, `ExtractExpr::create`,
    `EqExpr::create`, `ReadExpr::create`) are the plain constructors below:
    their simplifications are not part of this model. */
module Exprs {

  /** Bit widths of the expression language (`Expr::Bool`, `Expr::Int8`, `Expr::Int32`). */
  const Bool: nat := 1
  const Int8: nat := 8
  const Int32: nat := 32

  /** An array: a name, a byte size, index (domain) and value (range) widths,
      and either symbolic (solver-chosen) or constant contents. */
  datatype Array = Array(name: string, size: nat, domain: nat, range: nat,
                         isSymbolic: bool, constantValues: seq<nat>)
  {
    /** What the array constructor guarantees: a constant array has one value per byte. */
    predicate WellFormed() {
      isSymbolic || |constantValues| == size
    }
  }

  /** Expressions. `Other` stands for every operator the layer only traverses. */
  datatype Expr =
    | Constant(width: nat, value: nat)
    | Read(updates: UpdateList, index: Expr)
    | Extract(expr: Expr, offset: nat, width: nat)
    | Eq(left: Expr, right: Expr)
    | Other(width: nat, kids: seq<Expr>)

  /** One write of an update list. */
  datatype UpdateNode = UpdateNode(index: Expr, value: Expr)

  /** A root array and its writes, most recent (the list's head) first. */
  datatype UpdateList = UpdateList(root: Array, nodes: seq<UpdateNode>)

  /** A query: constraints in insertion order and a goal expression. */
  datatype Query = Query(constraints: seq<Expr>, expr: Expr)

  function Width(e: Expr): nat {
    match e
    case Constant(w, _) => w
    case Read(ul, _) => ul.root.range
    case Extract(_, _, w) => w
    case Eq(_, _) => Bool
    case Other(w, _) => w
  }

  /** The constant `false` used as the goal of a query whose goal does not matter. */
  function False(): Expr {
    Constant(Bool, 0)
  }

  /** A read of an array with an empty update list, `ReadExpr::create(UpdateList(a, 0), i)`. */
  function ReadAt(a: Array, i: Expr): Expr {
    Read(UpdateList(a, []), i)
  }

  predicate Distinct<T(==)>(s: seq<T>) {
    forall i, j :: 0 <= i < j < |s| ==> s[i] != s[j]
  }

  function Elems<T>(s: seq<T>): set<T> {
    set x | x in s
  }

  /** Appending an element not yet listed keeps a sequence duplicate-free. */
  lemma DistinctSnoc<T>(s: seq<T>, x: T)
    requires Distinct(s) && x !in s
    ensures Distinct(s + [x]) && Elems(s + [x]) == Elems(s) + {x}
  {
  }
}
