/**
 * The Fibonacci chip and circuit: `configure` builds the constraint system,
 * `synthesize` fills an explicit table of rows (a, b, c, selector bit), the
 * instance column and the list of copy constraints; proof generation and
 * verification go through an ideal backend that accepts exactly the proofs
 * whose witness satisfies the table for the given public input.
 */
module Fibonacci {
  import opened Wrappers
  import opened Field
  import opened Plonkish
  import opened Errors

  // ---------------------------------------------------------------------
  // Configuration

  datatype FibonacciConfig = FibonacciConfig(
    colA: Column, colB: Column, colC: Column, selector: Selector, instance: Column)

  /** Three distinct advice columns and one instance column. */
  predicate WellFormed(cfg: FibonacciConfig)
  {
    && cfg.colA.Advice? && cfg.colB.Advice? && cfg.colC.Advice?
    && cfg.colA != cfg.colB && cfg.colA != cfg.colC && cfg.colB != cfg.colC
    && cfg.instance.Instance?
  }

  /** The configuration `configure` returns on a fresh constraint system. */
  const CONFIG := FibonacciConfig(Advice(0), Advice(1), Advice(2), Selector(0), Instance(0))

  /** The one gate, "add": s * (a + b - c). */
  function AddGate(cfg: FibonacciConfig): Gate
  {
    Gate("add", [Product(QuerySelector(cfg.selector),
                         Difference(Sum(Query(cfg.colA), Query(cfg.colB)), Query(cfg.colC)))])
  }

  /** `FibonacciChip::configure`. */
  method Configure(meta: ConstraintSystem) returns (cfg: FibonacciConfig)
    requires meta.Valid()
    modifies meta
    ensures meta.Valid() && WellFormed(cfg)
    ensures cfg == FibonacciConfig(Advice(old(meta.numAdvice)), Advice(old(meta.numAdvice) + 1),
                                   Advice(old(meta.numAdvice) + 2), Selector(old(meta.numSelectors)),
                                   Instance(old(meta.numInstance)))
    ensures meta.numAdvice == old(meta.numAdvice) + 3
    ensures meta.numSelectors == old(meta.numSelectors) + 1
    ensures meta.numInstance == old(meta.numInstance) + 1
    ensures meta.equality == old(meta.equality) + [cfg.colA, cfg.colB, cfg.colC, cfg.instance]
    ensures meta.gates == old(meta.gates) + [AddGate(cfg)]
  {
    var colA := meta.AdviceColumn();
    var colB := meta.AdviceColumn();
    var colC := meta.AdviceColumn();
    var selector := meta.NewSelector();
    var instance := meta.InstanceColumn();

    meta.EnableEquality(colA);
    meta.EnableEquality(colB);
    meta.EnableEquality(colC);
    meta.EnableEquality(instance);

    cfg := FibonacciConfig(colA, colB, colC, selector, instance);
    meta.CreateGate(AddGate(cfg));
  }

  /** `FibonacciCircuit::configure` on the empty constraint system of key generation. */
  method ConfigureCircuit() returns (cfg: FibonacciConfig)
    ensures cfg == CONFIG
  {
    var meta := new ConstraintSystem();
    cfg := Configure(meta);
  }

  // ---------------------------------------------------------------------
  // The assignment table

  /** One row of the chip's region: the three advice cells and the selector bit. */
  datatype Row = Row(a: Value, b: Value, c: Value, enabled: bool)

  const BLANK_ROW := Row(None, None, None, false)

  /** halo2's `Value` addition: known only when both operands are. */
  function VAdd(x: Value, y: Value): Value
  {
    if x.Some? && y.Some? then Some(Add(x.value, y.value)) else None
  }

  predicate IsAdviceLane(cfg: FibonacciConfig, col: Column)
  {
    col == cfg.colA || col == cfg.colB || col == cfg.colC
  }

  /** The row with the advice cell of `col` replaced by `v`. */
  function SetCell(cfg: FibonacciConfig, row: Row, col: Column, v: Value): Row
    requires IsAdviceLane(cfg, col)
  {
    if col == cfg.colA then row.(a := v)
    else if col == cfg.colB then row.(b := v)
    else row.(c := v)
  }

  /** Slot i of the instance column; a missing slot has no value. */
  function InstanceAt(instance: seq<Value>, i: nat): Value
  {
    if i < |instance| then instance[i] else None
  }

  /** What a cell of the grid holds. */
  function CellValue(cfg: FibonacciConfig, rows: seq<Row>, instance: seq<Value>, cell: Cell): Value
  {
    if cell.column == cfg.instance then InstanceAt(instance, cell.row)
    else if cell.row >= |rows| then None
    else if cell.column == cfg.colA then rows[cell.row].a
    else if cell.column == cfg.colB then rows[cell.row].b
    else if cell.column == cfg.colC then rows[cell.row].c
    else None
  }

  /** `AssignedCell`: where a value was written, and the value. */
  datatype AssignedCell = AssignedCell(cell: Cell, value: Value)

  /** The layouter with its assignment: rows placed one region after the other. */
  class Layouter {
    const config: FibonacciConfig
    const instance: seq<Value>
    var rows: seq<Row>
    var copies: seq<Copy>

    constructor (config: FibonacciConfig, instance: seq<Value>)
      ensures this.config == config && this.instance == instance
      ensures rows == [] && copies == []
    {
      this.config := config;
      this.instance := instance;
      rows, copies := [], [];
    }

    /** `assign_region` for a one-row region: it starts below every row used so far. */
    method AssignRegion() returns (start: nat)
      modifies this
      ensures start == old(|rows|)
      ensures rows == old(rows) + [BLANK_ROW] && copies == old(copies)
    {
      start := |rows|;
      rows := rows + [BLANK_ROW];
    }

    /** `Selector::enable`. */
    method EnableSelector(row: nat)
      requires row < |rows|
      modifies this
      ensures rows == old(rows)[row := old(rows)[row].(enabled := true)]
      ensures copies == old(copies)
    {
      rows := rows[row := rows[row].(enabled := true)];
    }

    /** `assign_advice`: writes a value, adds no constraint. */
    method AssignAdvice(col: Column, row: nat, v: Value) returns (cell: AssignedCell)
      requires IsAdviceLane(config, col) && row < |rows|
      modifies this
      ensures cell == AssignedCell(Cell(col, row), v)
      ensures rows == old(rows)[row := SetCell(config, old(rows)[row], col, v)]
      ensures copies == old(copies)
    {
      rows := rows[row := SetCell(config, rows[row], col, v)];
      cell := AssignedCell(Cell(col, row), v);
    }

    /** `assign_advice_from_instance`: copies an instance slot into an advice cell. */
    method AssignAdviceFromInstance(instanceRow: nat, col: Column, row: nat) returns (cell: AssignedCell)
      requires IsAdviceLane(config, col) && row < |rows|
      modifies this
      ensures cell == AssignedCell(Cell(col, row), InstanceAt(instance, instanceRow))
      ensures rows == old(rows)[row := SetCell(config, old(rows)[row], col, InstanceAt(instance, instanceRow))]
      ensures copies == old(copies) + [Copy(Cell(config.instance, instanceRow), Cell(col, row))]
    {
      var v := InstanceAt(instance, instanceRow);
      rows := rows[row := SetCell(config, rows[row], col, v)];
      copies := copies + [Copy(Cell(config.instance, instanceRow), Cell(col, row))];
      cell := AssignedCell(Cell(col, row), v);
    }

    /** `AssignedCell::copy_advice`: writes the cell's value elsewhere and ties the two. */
    method CopyAdvice(source: AssignedCell, col: Column, row: nat) returns (cell: AssignedCell)
      requires IsAdviceLane(config, col) && row < |rows|
      modifies this
      ensures cell == AssignedCell(Cell(col, row), source.value)
      ensures rows == old(rows)[row := SetCell(config, old(rows)[row], col, source.value)]
      ensures copies == old(copies) + [Copy(source.cell, Cell(col, row))]
    {
      rows := rows[row := SetCell(config, rows[row], col, source.value)];
      copies := copies + [Copy(source.cell, Cell(col, row))];
      cell := AssignedCell(Cell(col, row), source.value);
    }

    /** `constrain_instance`: ties a cell to an instance slot. */
    method ConstrainInstance(cell: Cell, instanceRow: nat)
      modifies this
      ensures rows == old(rows)
      ensures copies == old(copies) + [Copy(cell, Cell(config.instance, instanceRow))]
    {
      copies := copies + [Copy(cell, Cell(config.instance, instanceRow))];
    }
  }

  // ---------------------------------------------------------------------
  // The chip

  /** `assign_first_row`: a = instance[0], b = instance[1], c = a + b, selector on. */
  method AssignFirstRow(layouter: Layouter) returns (a: AssignedCell, b: AssignedCell, c: AssignedCell)
    requires WellFormed(layouter.config)
    modifies layouter
    ensures var cfg, r, inst := layouter.config, old(|layouter.rows|), layouter.instance;
      && layouter.rows == old(layouter.rows) + [Row(InstanceAt(inst, 0), InstanceAt(inst, 1),
                                                    VAdd(InstanceAt(inst, 0), InstanceAt(inst, 1)), true)]
      && layouter.copies == old(layouter.copies) + [Copy(Cell(cfg.instance, 0), Cell(cfg.colA, r)),
                                                    Copy(Cell(cfg.instance, 1), Cell(cfg.colB, r))]
      && a == AssignedCell(Cell(cfg.colA, r), InstanceAt(inst, 0))
      && b == AssignedCell(Cell(cfg.colB, r), InstanceAt(inst, 1))
      && c == AssignedCell(Cell(cfg.colC, r), VAdd(InstanceAt(inst, 0), InstanceAt(inst, 1)))
  {
    var cfg := layouter.config;
    var r := layouter.AssignRegion();
    layouter.EnableSelector(r);
    a := layouter.AssignAdviceFromInstance(0, cfg.colA, r);
    b := layouter.AssignAdviceFromInstance(1, cfg.colB, r);
    c := layouter.AssignAdvice(cfg.colC, r, VAdd(a.value, b.value));
  }

  /** `assign_row`: a := prev b, b := prev c (both copied), c = prev b + prev c, selector on. */
  method AssignRow(layouter: Layouter, prevB: AssignedCell, prevC: AssignedCell) returns (c: AssignedCell)
    requires WellFormed(layouter.config)
    modifies layouter
    ensures var cfg, r := layouter.config, old(|layouter.rows|);
      && layouter.rows == old(layouter.rows) + [Row(prevB.value, prevC.value, VAdd(prevB.value, prevC.value), true)]
      && layouter.copies == old(layouter.copies) + [Copy(prevB.cell, Cell(cfg.colA, r)),
                                                    Copy(prevC.cell, Cell(cfg.colB, r))]
      && c == AssignedCell(Cell(cfg.colC, r), VAdd(prevB.value, prevC.value))
  {
    var cfg := layouter.config;
    var r := layouter.AssignRegion();
    layouter.EnableSelector(r);
    var _ := layouter.CopyAdvice(prevB, cfg.colA, r);
    var _ := layouter.CopyAdvice(prevC, cfg.colB, r);
    c := layouter.AssignAdvice(cfg.colC, r, VAdd(prevB.value, prevC.value));
  }

  /** `expose_public`: binds a cell to an instance slot. */
  method ExposePublic(layouter: Layouter, cell: AssignedCell, row: nat)
    modifies layouter
    ensures layouter.rows == old(layouter.rows)
    ensures layouter.copies == old(layouter.copies) + [Copy(cell.cell, Cell(layouter.config.instance, row))]
  {
    layouter.ConstrainInstance(cell.cell, row);
  }

  // ---------------------------------------------------------------------
  // What synthesis produces

  /** The first row plus one row for each of the 7 iterations of `3..10`. */
  const NUM_ROWS: nat := 8

  /** The recurrence term_0 = x, term_1 = y, term_{n+2} = term_n + term_{n+1} over Fr. */
  function Fib(x: Fe, y: Fe, n: nat): Fe
    decreases n
  {
    if n == 0 then x else Fib(y, Add(x, y), n - 1)
  }

  lemma {:induction false} FibRecurrence(x: Fe, y: Fe, n: nat)
    ensures Fib(x, y, n + 2) == Add(Fib(x, y, n), Fib(x, y, n + 1))
    decreases n
  {
    if n == 0 {
      assert Fib(x, y, 2) == Fib(y, Add(x, y), 1) == Add(x, y);
    } else {
      FibRecurrence(y, Add(x, y), n - 1);
    }
  }

  /** Term n of the recurrence as synthesis sees it: unknown unless both seeds are known. */
  function Term(instance: seq<Value>, n: nat): Value
  {
    var x, y := InstanceAt(instance, 0), InstanceAt(instance, 1);
    if n == 0 then x
    else if n == 1 then y
    else if x.Some? && y.Some? then Some(Fib(x.value, y.value, n))
    else None
  }

  lemma TermRecurrence(instance: seq<Value>, n: nat)
    ensures VAdd(Term(instance, n), Term(instance, n + 1)) == Term(instance, n + 2)
  {
    var x, y := InstanceAt(instance, 0), InstanceAt(instance, 1);
    if x.Some? && y.Some? {
      FibRecurrence(x.value, y.value, n);
    }
  }

  /** Row k holds terms k, k+1 and k+2 and has its selector on. */
  function ExpectedRows(instance: seq<Value>): seq<Row>
  {
    seq(NUM_ROWS, k requires 0 <= k => Row(Term(instance, k), Term(instance, k + 1), Term(instance, k + 2), true))
  }

  /** The cell the loop's `prev_b` points at when row k >= 1 is assigned. */
  function PrevBCell(cfg: FibonacciConfig, k: nat): Cell
    requires k >= 1
  {
    if k == 1 then Cell(cfg.colB, 0) else Cell(cfg.colC, k - 2)
  }

  /** The copy constraints row k adds. */
  function RowCopies(cfg: FibonacciConfig, k: nat): seq<Copy>
  {
    if k == 0 then
      [Copy(Cell(cfg.instance, 0), Cell(cfg.colA, 0)), Copy(Cell(cfg.instance, 1), Cell(cfg.colB, 0))]
    else
      [Copy(PrevBCell(cfg, k), Cell(cfg.colA, k)), Copy(Cell(cfg.colC, k - 1), Cell(cfg.colB, k))]
  }

  function CopiesUpTo(cfg: FibonacciConfig, n: nat): seq<Copy>
  {
    if n == 0 then [] else CopiesUpTo(cfg, n - 1) + RowCopies(cfg, n - 1)
  }

  /** Every row's copies, then the last c bound to instance slot 2. */
  function ExpectedCopies(cfg: FibonacciConfig): seq<Copy>
  {
    CopiesUpTo(cfg, NUM_ROWS) + [Copy(Cell(cfg.colC, NUM_ROWS - 1), Cell(cfg.instance, 2))]
  }

  /** `FibonacciCircuit::synthesize`. */
  method Synthesize(config: FibonacciConfig, instance: seq<Value>) returns (layouter: Layouter)
    requires WellFormed(config)
    ensures fresh(layouter)
    ensures layouter.config == config && layouter.instance == instance
    ensures layouter.rows == ExpectedRows(instance)
    ensures layouter.copies == ExpectedCopies(config)
  {
    layouter := new Layouter(config, instance);
    var _, prevB, prevC := AssignFirstRow(layouter);
    TermRecurrence(instance, 0);
    assert layouter.rows == ExpectedRows(instance)[..1];
    for i := 3 to 10
      invariant layouter.rows == ExpectedRows(instance)[..i - 2]
      invariant layouter.copies == CopiesUpTo(config, i - 2)
      invariant prevB == AssignedCell(PrevBCell(config, i - 2), Term(instance, i - 2))
      invariant prevC == AssignedCell(Cell(config.colC, i - 3), Term(instance, i - 1))
    {
      TermRecurrence(instance, i - 2);
      var c := AssignRow(layouter, prevB, prevC);
      prevB := prevC;
      prevC := c;
    }
    ExposePublic(layouter, prevC, 2);
  }

  // ---------------------------------------------------------------------
  // Constraint satisfaction

  function Known(v: Value): Fe
  {
    if v.Some? then v.value else 0
  }

  /** The advice cells of a row, by column. */
  function RowCells(cfg: FibonacciConfig, row: Row): Column -> Fe
  {
    col => if col == cfg.colA then Known(row.a)
           else if col == cfg.colB then Known(row.b)
           else if col == cfg.colC then Known(row.c)
           else 0
  }

  /** The selector bits of a row: only the chip's selector, and only where enabled. */
  function RowSelectors(cfg: FibonacciConfig, row: Row): Selector -> bool
  {
    s => row.enabled && s == cfg.selector
  }

  predicate Assigned(row: Row)
  {
    row.a.Some? && row.b.Some? && row.c.Some?
  }

  /** Every cell of the row is assigned and every polynomial of the gate vanishes on it. */
  predicate GateHolds(cfg: FibonacciConfig, row: Row)
  {
    && Assigned(row)
    && forall e :: e in AddGate(cfg).polys ==>
         Eval(e, RowCells(cfg, row), RowSelectors(cfg, row)) == 0
  }

  predicate CopyHolds(cfg: FibonacciConfig, rows: seq<Row>, instance: seq<Value>, cp: Copy)
  {
    && CellValue(cfg, rows, instance, cp.left).Some?
    && CellValue(cfg, rows, instance, cp.left) == CellValue(cfg, rows, instance, cp.right)
  }

  /** The witness satisfies every gate and every copy constraint. */
  predicate Satisfied(cfg: FibonacciConfig, rows: seq<Row>, copies: seq<Copy>, instance: seq<Value>)
  {
    && (forall k :: 0 <= k < |rows| ==> GateHolds(cfg, rows[k]))
    && (forall cp :: cp in copies ==> CopyHolds(cfg, rows, instance, cp))
  }

  /** On an assigned row the gate says exactly: if the selector is on, c = a + b. */
  lemma GateMeansAddition(cfg: FibonacciConfig, row: Row)
    requires WellFormed(cfg) && Assigned(row)
    ensures GateHolds(cfg, row) <==> (row.enabled ==> row.c.value == Add(row.a.value, row.b.value))
  {
    var cells, sel := RowCells(cfg, row), RowSelectors(cfg, row);
    var a, b, c := row.a.value, row.b.value, row.c.value;
    var e := AddGate(cfg).polys[0];
    assert AddGate(cfg).polys == [e];
    assert cells(cfg.colA) == a && cells(cfg.colB) == b && cells(cfg.colC) == c;
    var sum := Sum(Query(cfg.colA), Query(cfg.colB));
    assert Eval(sum, cells, sel) == Add(a, b);
    assert Eval(Difference(sum, Query(cfg.colC)), cells, sel) == Sub(Add(a, b), c);
    assert Eval(e, cells, sel) == Mul(if row.enabled then 1 else 0, Sub(Add(a, b), c));
    SubZeroIff(Add(a, b), c);
    assert Mul(1, Sub(Add(a, b), c)) == Sub(Add(a, b), c);
    assert Mul(0, Sub(Add(a, b), c)) == 0;
    assert GateHolds(cfg, row) <==> Eval(e, cells, sel) == 0;
  }

  lemma {:induction false} RowCopiesIncluded(cfg: FibonacciConfig, k: nat, n: nat)
    requires k < n
    ensures forall cp :: cp in RowCopies(cfg, k) ==> cp in CopiesUpTo(cfg, n)
  {
    if k < n - 1 {
      RowCopiesIncluded(cfg, k, n - 1);
    }
  }

  /**
   * Soundness of the layout: any assignment to the eight gated rows that
   * satisfies the gates and the copy constraints holds the recurrence, so the
   * instance's slot 2 is term 9 of the seeds in slots 0 and 1.
   */
  lemma {:induction false} SatisfiedRowsFollowRecurrence(
    cfg: FibonacciConfig, rows: seq<Row>, x: Fe, y: Fe, out: Fe, k: nat)
    requires WellFormed(cfg)
    requires |rows| == NUM_ROWS && forall j :: 0 <= j < |rows| ==> rows[j].enabled
    requires Satisfied(cfg, rows, ExpectedCopies(cfg), [Some(x), Some(y), Some(out)])
    requires k < NUM_ROWS
    ensures rows[k] == Row(Some(Fib(x, y, k)), Some(Fib(x, y, k + 1)), Some(Fib(x, y, k + 2)), true)
    decreases k
  {
    var inst := [Some(x), Some(y), Some(out)];
    var copies := ExpectedCopies(cfg);
    RowCopiesIncluded(cfg, k, NUM_ROWS);
    var rc := RowCopies(cfg, k);
    assert rc[0] in copies && rc[1] in copies;
    assert CopyHolds(cfg, rows, inst, rc[0]) && CopyHolds(cfg, rows, inst, rc[1]);
    assert GateHolds(cfg, rows[k]);
    GateMeansAddition(cfg, rows[k]);
    FibRecurrence(x, y, k);
    if k == 0 {
      assert Fib(x, y, 1) == y;
    } else if k == 1 {
      SatisfiedRowsFollowRecurrence(cfg, rows, x, y, out, 0);
    } else {
      SatisfiedRowsFollowRecurrence(cfg, rows, x, y, out, k - 1);
      SatisfiedRowsFollowRecurrence(cfg, rows, x, y, out, k - 2);
    }
  }

  /** The output assertion: a satisfying witness forces slot 2 to be term 9. */
  lemma SatisfiedForcesOutput(cfg: FibonacciConfig, rows: seq<Row>, x: Fe, y: Fe, out: Fe)
    requires WellFormed(cfg)
    requires |rows| == NUM_ROWS && forall j :: 0 <= j < |rows| ==> rows[j].enabled
    requires Satisfied(cfg, rows, ExpectedCopies(cfg), [Some(x), Some(y), Some(out)])
    ensures out == Fib(x, y, NUM_ROWS + 1)
  {
    SatisfiedRowsFollowRecurrence(cfg, rows, x, y, out, NUM_ROWS - 1);
    var last := Copy(Cell(cfg.colC, NUM_ROWS - 1), Cell(cfg.instance, 2));
    assert last in ExpectedCopies(cfg);
    assert CopyHolds(cfg, rows, [Some(x), Some(y), Some(out)], last);
  }

  lemma {:induction false} SynthesizedCopiesHold(cfg: FibonacciConfig, x: Fe, y: Fe, out: Fe, n: nat)
    requires WellFormed(cfg) && n <= NUM_ROWS
    ensures var inst := [Some(x), Some(y), Some(out)];
      forall cp :: cp in CopiesUpTo(cfg, n) ==> CopyHolds(cfg, ExpectedRows(inst), inst, cp)
  {
    if n > 0 {
      SynthesizedCopiesHold(cfg, x, y, out, n - 1);
      var inst := [Some(x), Some(y), Some(out)];
      var rows := ExpectedRows(inst);
      var k := n - 1;
      forall cp | cp in RowCopies(cfg, k)
        ensures CopyHolds(cfg, rows, inst, cp)
      {
        if k >= 2 {
          assert CellValue(cfg, rows, inst, Cell(cfg.colC, k - 2)) == Term(inst, k);
        }
      }
    }
  }

  /** Gates hold by construction: every row synthesis fills satisfies the "add" gate, whatever the output. */
  lemma SynthesizedGatesHold(cfg: FibonacciConfig, x: Fe, y: Fe, out: Fe)
    requires WellFormed(cfg)
    ensures var rows := ExpectedRows([Some(x), Some(y), Some(out)]);
      forall k :: 0 <= k < |rows| ==> GateHolds(cfg, rows[k])
  {
    var rows := ExpectedRows([Some(x), Some(y), Some(out)]);
    forall k | 0 <= k < |rows|
      ensures GateHolds(cfg, rows[k])
    {
      TermRecurrence([Some(x), Some(y), Some(out)], k);
      GateMeansAddition(cfg, rows[k]);
    }
  }

  /**
   * The witness synthesis builds from seeds (x, y) and declared output `out`
   * satisfies the constraint system exactly when `out` is term 9.
   */
  lemma SynthesizedWitnessSatisfiedIff(cfg: FibonacciConfig, x: Fe, y: Fe, out: Fe)
    requires WellFormed(cfg)
    ensures var inst := [Some(x), Some(y), Some(out)];
      Satisfied(cfg, ExpectedRows(inst), ExpectedCopies(cfg), inst) <==> out == Fib(x, y, NUM_ROWS + 1)
  {
    var inst := [Some(x), Some(y), Some(out)];
    var rows := ExpectedRows(inst);
    if out == Fib(x, y, NUM_ROWS + 1) {
      SynthesizedGatesHold(cfg, x, y, out);
      SynthesizedCopiesHold(cfg, x, y, out, NUM_ROWS);
      assert CellValue(cfg, rows, inst, Cell(cfg.colC, NUM_ROWS - 1)) == Some(out);
    } else if Satisfied(cfg, rows, ExpectedCopies(cfg), inst) {
      SatisfiedForcesOutput(cfg, rows, x, y, out);
    }
  }

  /** For the seeds (1, 1) term 9 is 55: the circuit accepts 55 and rejects 56. */
  lemma FibonacciOfOneOne()
    ensures Fib(1, 1, NUM_ROWS + 1) == 55
  {
    assert Fib(1, 1, 9) == Fib(1, 2, 8) == Fib(2, 3, 7) == Fib(3, 5, 6) == Fib(5, 8, 5)
        == Fib(8, 13, 4) == Fib(13, 21, 3) == Fib(21, 34, 2) == Fib(34, 55, 1) == 55;
  }

  // ---------------------------------------------------------------------
  // The circuit, key generation and proof generation

  /** `FibonacciCircuit`: the public input, one vector per instance column. */
  datatype FibonacciCircuit = FibonacciCircuit(publicInput: seq<seq<Fe>>)

  /** `without_witnesses`: the default circuit, with no public input. */
  function WithoutWitnesses(c: FibonacciCircuit): (r: FibonacciCircuit)
    ensures r.publicInput == []
  {
    FibonacciCircuit([])
  }

  /** Key generation reads no instance value; proving reads `instances()`. */
  datatype Mode = KeyGeneration | Proving

  /** The values synthesis finds in the instance column. */
  function InstanceValues(c: FibonacciCircuit, mode: Mode): (vs: seq<Value>)
    ensures mode.KeyGeneration? ==> forall i :: InstanceAt(vs, i) == None
    ensures mode.Proving? && |c.publicInput| > 0 ==>
      |vs| == |c.publicInput[0]| && forall i :: 0 <= i < |vs| ==> vs[i] == Some(c.publicInput[0][i])
  {
    if mode.KeyGeneration? || |c.publicInput| == 0 then []
    else seq(|c.publicInput[0]|, i requires 0 <= i < |c.publicInput[0]| => Some(c.publicInput[0][i]))
  }

  /** The shape of a table: how many rows and which have the selector on. */
  function Shape(rows: seq<Row>): seq<bool>
  {
    seq(|rows|, k requires 0 <= k < |rows| => rows[k].enabled)
  }

  /**
   * The layout does not depend on the public input: key generation without
   * witnesses and proving with any input give eight gated rows and the same
   * copy constraints; at key generation every advice value is unknown.
   */
  lemma LayoutIndependentOfInputs(c: FibonacciCircuit, mode: Mode)
    ensures var keygen := InstanceValues(WithoutWitnesses(c), KeyGeneration);
      && Shape(ExpectedRows(InstanceValues(c, mode))) == Shape(ExpectedRows(keygen))
      && Shape(ExpectedRows(keygen)) == seq(NUM_ROWS, _ => true)
      && ExpectedRows(keygen) == seq(NUM_ROWS, _ => Row(None, None, None, true))
  {
    var keygen := InstanceValues(WithoutWitnesses(c), KeyGeneration);
    assert forall n :: Term(keygen, n) == None;
  }

  /** Every copy constraint of the layout joins columns with equality enabled. */
  lemma CopiesUseEqualityColumns(cfg: FibonacciConfig)
    ensures forall cp :: cp in ExpectedCopies(cfg) ==>
      cp.left.column in [cfg.colA, cfg.colB, cfg.colC, cfg.instance] &&
      cp.right.column in [cfg.colA, cfg.colB, cfg.colC, cfg.instance]
  {
    CopiesUpToColumns(cfg, NUM_ROWS);
  }

  lemma {:induction false} CopiesUpToColumns(cfg: FibonacciConfig, n: nat)
    ensures forall cp :: cp in CopiesUpTo(cfg, n) ==>
      cp.left.column in [cfg.colA, cfg.colB, cfg.colC, cfg.instance] &&
      cp.right.column in [cfg.colA, cfg.colB, cfg.colC, cfg.instance]
  {
    if n > 0 {
      CopiesUpToColumns(cfg, n - 1);
    }
  }

  /**
   * What the proving backend returns, idealised: the statement it was made
   * for and whether the prover's witness satisfied the constraint system.
   */
  datatype Proof = Proof(statement: seq<Fe>, witnessSatisfied: bool)

  /** The prover: synthesises the witness of the circuit's public input. */
  function Prove(c: FibonacciCircuit): Proof
  {
    var inst := InstanceValues(c, Proving);
    Proof(if |c.publicInput| > 0 then c.publicInput[0] else [],
          Satisfied(CONFIG, ExpectedRows(inst), ExpectedCopies(CONFIG), inst))
  }

  /** The verifier accepts a proof exactly for the statement it proves, if its witness was valid. */
  predicate BackendVerify(proof: Proof, inputs: seq<Fe>)
  {
    proof.witnessSatisfied && proof.statement == inputs
  }

  /** The input extraction of `generate_halo2_proof`: [1, 1, out[0]]. */
  function PublicInput(inputs: map<string, seq<Fe>>): (r: Result<seq<Fe>, FibonacciError>)
    ensures r.Err? <==> "out" !in inputs || |inputs["out"]| == 0
    ensures r.Err? ==> r.error == MissingOut
    ensures r.Ok? ==> r.value == [1, 1, inputs["out"][0]]
  {
    if "out" !in inputs then Err(MissingOut)
    else if |inputs["out"]| == 0 then Err(MissingOut)
    else Ok([1, 1, inputs["out"][0]])
  }

  /** `generate_halo2_proof`: the proof and the public input it was made for. */
  function GenerateHalo2Proof(inputs: map<string, seq<Fe>>): (r: Result<(Proof, seq<Fe>), FibonacciError>)
    ensures r.Ok? <==> PublicInput(inputs).Ok?
    ensures r.Err? ==> r.error == MissingOut
    ensures r.Ok? ==> r.value.1 == PublicInput(inputs).value && r.value.0.statement == r.value.1
  {
    match PublicInput(inputs)
    case Err(e) => Err(e)
    case Ok(publicInput) => Ok((Prove(FibonacciCircuit([publicInput])), publicInput))
  }

  /** `verify_halo2_proof`: `Ok(true)` when the backend accepts, its error otherwise. */
  function VerifyHalo2Proof(proof: Proof, inputs: seq<Fe>): (r: Result<bool, FibonacciError>)
    ensures r.Ok? <==> BackendVerify(proof, inputs)
    ensures r.Ok? ==> r.value
    ensures r.Err? ==> r.error == VerifyingProofError
  {
    if BackendVerify(proof, inputs) then Ok(true) else Err(VerifyingProofError)
  }

  /**
   * Generating and then verifying a proof from an input map succeeds exactly
   * when the declared output is 55, term 9 of the seeds (1, 1).
   */
  lemma GenerateThenVerify(inputs: map<string, seq<Fe>>)
    requires "out" in inputs && |inputs["out"]| > 0
    ensures GenerateHalo2Proof(inputs).Ok?
    ensures var (proof, publicInput) := GenerateHalo2Proof(inputs).value;
      VerifyHalo2Proof(proof, publicInput) ==
        if inputs["out"][0] == 55 then Ok(true) else Err(VerifyingProofError)
  {
    var out := inputs["out"][0];
    SynthesizedWitnessSatisfiedIff(CONFIG, 1, 1, out);
    FibonacciOfOneOne();
    var inst := InstanceValues(FibonacciCircuit([[1, 1, out]]), Proving);
    assert inst == [Some(1), Some(1), Some(out)];
  }

  /** A valid proof for output 55 is rejected when checked against output 56. */
  lemma PublicInputMismatchRejected()
    ensures var proof := Prove(FibonacciCircuit([[1, 1, 55]]));
      && VerifyHalo2Proof(proof, [1, 1, 55]) == Ok(true)
      && VerifyHalo2Proof(proof, [1, 1, 56]) == Err(VerifyingProofError)
  {
    SynthesizedWitnessSatisfiedIff(CONFIG, 1, 1, 55);
    FibonacciOfOneOne();
    var inst := InstanceValues(FibonacciCircuit([[1, 1, 55]]), Proving);
    assert inst == [Some(1), Some(1), Some(55)];
    var wrong: seq<Fe> := [1, 1, 56];
    assert wrong[2] != 55;
  }
}
