/**
 * The part of the halo2 frontend the Fibonacci chip relies on: columns,
 * selectors, cells, gate polynomials over the current row, and the
 * constraint system that `configure` fills in.
 */
module Plonkish {
  import opened Wrappers
  import opened Field

  /** A column, numbered within its kind in allocation order. */
  datatype Column = Advice(index: nat) | Instance(index: nat)

  datatype Selector = Selector(index: nat)

  /** A cell of the grid: a column and an absolute row. */
  datatype Cell = Cell(column: Column, row: nat)

  /** An equality (copy) constraint between two cells. */
  datatype Copy = Copy(left: Cell, right: Cell)

  /** halo2's `Value<F>`: known while proving, unknown during key generation. */
  type Value = Option<Fe>

  /** A polynomial over the cells of one row (every query is at `Rotation::cur()`). */
  datatype Expr =
    | Query(column: Column)
    | QuerySelector(selector: Selector)
    | Sum(left: Expr, right: Expr)
    | Difference(left: Expr, right: Expr)
    | Product(left: Expr, right: Expr)

  /** The value of a polynomial on a row, given the row's cells and selector bits. */
  function Eval(e: Expr, cells: Column -> Fe, selectors: Selector -> bool): Fe
  {
    match e
    case Query(c) => cells(c)
    case QuerySelector(s) => if selectors(s) then 1 else 0
    case Sum(l, r) => Add(Eval(l, cells, selectors), Eval(r, cells, selectors))
    case Difference(l, r) => Sub(Eval(l, cells, selectors), Eval(r, cells, selectors))
    case Product(l, r) => Mul(Eval(l, cells, selectors), Eval(r, cells, selectors))
  }

  /** A named gate: each of its polynomials must vanish on every row. */
  datatype Gate = Gate(name: string, polys: seq<Expr>)

  /** `ConstraintSystem<F>` as far as column allocation, equality and gates go. */
  class ConstraintSystem {
    var numAdvice: nat
    var numInstance: nat
    var numSelectors: nat
    /** Columns taking part in the permutation argument, in the order enabled. */
    var equality: seq<Column>
    var gates: seq<Gate>

    /** Only allocated columns can take part in the permutation argument. */
    ghost predicate Valid()
      reads this
    {
      forall c :: c in equality ==> Allocated(c)
    }

    ghost predicate Allocated(c: Column)
      reads this
    {
      match c
      case Advice(i) => i < numAdvice
      case Instance(i) => i < numInstance
    }

    constructor ()
      ensures Valid()
      ensures numAdvice == 0 && numInstance == 0 && numSelectors == 0
      ensures equality == [] && gates == []
    {
      numAdvice, numInstance, numSelectors := 0, 0, 0;
      equality, gates := [], [];
    }

    method AdviceColumn() returns (c: Column)
      requires Valid()
      modifies this
      ensures Valid()
      ensures c == Advice(old(numAdvice)) && numAdvice == old(numAdvice) + 1
      ensures numInstance == old(numInstance) && numSelectors == old(numSelectors)
      ensures equality == old(equality) && gates == old(gates)
    {
      c := Advice(numAdvice);
      numAdvice := numAdvice + 1;
    }

    method InstanceColumn() returns (c: Column)
      requires Valid()
      modifies this
      ensures Valid()
      ensures c == Instance(old(numInstance)) && numInstance == old(numInstance) + 1
      ensures numAdvice == old(numAdvice) && numSelectors == old(numSelectors)
      ensures equality == old(equality) && gates == old(gates)
    {
      c := Instance(numInstance);
      numInstance := numInstance + 1;
    }

    method NewSelector() returns (s: Selector)
      requires Valid()
      modifies this
      ensures Valid()
      ensures s == Selector(old(numSelectors)) && numSelectors == old(numSelectors) + 1
      ensures numAdvice == old(numAdvice) && numInstance == old(numInstance)
      ensures equality == old(equality) && gates == old(gates)
    {
      s := Selector(numSelectors);
      numSelectors := numSelectors + 1;
    }

    /** Adds an allocated column to the permutation argument, once. */
    method EnableEquality(c: Column)
      requires Valid() && Allocated(c)
      modifies this
      ensures Valid()
      ensures equality == if c in old(equality) then old(equality) else old(equality) + [c]
      ensures numAdvice == old(numAdvice) && numInstance == old(numInstance)
      ensures numSelectors == old(numSelectors) && gates == old(gates)
    {
      if c !in equality {
        equality := equality + [c];
      }
    }

    /** Registers a gate; halo2 refuses a gate without constraints. */
    method CreateGate(g: Gate)
      requires Valid() && |g.polys| > 0
      modifies this
      ensures Valid()
      ensures gates == old(gates) + [g]
      ensures numAdvice == old(numAdvice) && numInstance == old(numInstance)
      ensures numSelectors == old(numSelectors) && equality == old(equality)
    {
      gates := gates + [g];
    }
  }
}
