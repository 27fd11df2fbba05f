/**
 * The truth-table branch of `readfile`: every input combination, in the
 * order of `itertools.product([0, 1], repeat=n)`, simulated once, each row
 * being the input tuple followed by the output tuple.
 */
module TruthTable {
  import opened Wrappers
  import opened Netlist
  import opened Simulator
  import opened SimulatorFacts

  /** The widest circuit the table accepts. */
  const MaxInputs: nat := 6

  function Pow2(n: nat): (r: nat)
    ensures r >= 1
  {
    if n == 0 then 1 else 2 * Pow2(n - 1)
  }

  /** `n` binary digits of `i`, most significant first. */
  function Digits(i: nat, n: nat): (r: seq<int>)
    requires i < Pow2(n)
    ensures |r| == n
  {
    if n == 0 then []
    else if i < Pow2(n - 1) then [0] + Digits(i, n - 1)
    else [1] + Digits(i - Pow2(n - 1), n - 1)
  }

  /** Every digit is a logic level. */
  lemma {:induction false} DigitsAreBits(i: nat, n: nat)
    requires i < Pow2(n)
    ensures Bits(Digits(i, n))
  {
    if n > 0 {
      DigitsAreBits(if i < Pow2(n - 1) then i else i - Pow2(n - 1), n - 1);
    }
  }

  /** The number a row of digits spells, most significant first. */
  function Value(bits: seq<int>): int
  {
    if bits == [] then 0 else bits[0] * Pow2(|bits| - 1) + Value(bits[1..])
  }

  /** `itertools.product([0, 1], repeat=n)`: the rows starting with 0, then the rows starting with 1. */
  function Product(n: nat): (r: seq<seq<int>>)
    ensures |r| == Pow2(n)
  {
    if n == 0 then [[]]
    else
      var p := Product(n - 1);
      seq(|p|, k requires 0 <= k < |p| => [0] + p[k]) + seq(|p|, k requires 0 <= k < |p| => [1] + p[k])
  }

  /** Row `i` of the product is the binary numeral of `i`: the table counts from 0 to 2^n - 1. */
  lemma {:induction false} ProductIsCounting(n: nat)
    ensures |Product(n)| == Pow2(n)
    ensures forall i :: 0 <= i < Pow2(n) ==> Product(n)[i] == Digits(i, n)
  {
    if n > 0 {
      ProductIsCounting(n - 1);
      var h := Pow2(n - 1);
      forall i | 0 <= i < Pow2(n) ensures Product(n)[i] == Digits(i, n) {
        if i < h {
          assert Product(n)[i] == [0] + Product(n - 1)[i];
        } else {
          assert Product(n)[i] == [1] + Product(n - 1)[i - h];
        }
      }
    }
  }

  /** Reading the digits back gives the row number. */
  lemma {:induction false} DigitsValue(i: nat, n: nat)
    requires i < Pow2(n)
    ensures Value(Digits(i, n)) == i
  {
    if n > 0 {
      var d := Digits(i, n);
      assert d[1..] == Digits(if i < Pow2(n - 1) then i else i - Pow2(n - 1), n - 1);
      DigitsValue(if i < Pow2(n - 1) then i else i - Pow2(n - 1), n - 1);
    }
  }

  lemma {:induction false} ValueBound(bits: seq<int>)
    requires Bits(bits)
    ensures 0 <= Value(bits) < Pow2(|bits|)
  {
    if bits != [] {
      ValueBound(bits[1..]);
    }
  }

  /** Every 0/1 row of length n occurs in the table, at the position its value names. */
  lemma {:induction false} ValueDigits(bits: seq<int>)
    requires Bits(bits)
    ensures 0 <= Value(bits) < Pow2(|bits|) && Digits(Value(bits), |bits|) == bits
  {
    ValueBound(bits);
    if bits != [] {
      var n := |bits|;
      var rest := bits[1..];
      ValueDigits(rest);
      var v := Value(rest);
      assert bits == [bits[0]] + rest;
      if bits[0] == 0 {
        assert Value(bits) == v;
        assert Digits(v, n) == [0] + Digits(v, n - 1);
      } else {
        assert Value(bits) == Pow2(n - 1) + v;
        assert Digits(Pow2(n - 1) + v, n) == [1] + Digits(v, n - 1);
      }
    }
  }

  /** `{pin: val for pin, val in zip(portinputs, values)}`. */
  function InputMap(ins: seq<string>, bits: seq<int>): (m: map<string, int>)
    requires |ins| == |bits|
  {
    Assign(map[], ins, bits)
  }

  /** A circuit as the table sees it: input map in, output values or a failure out. */
  type Circuit = map<string, int> -> Result<seq<int>, SimError>

  /** `simulate_circuit(filename, ...)` on a fixed netlist and library. */
  function CircuitOf(lib: Library, stmts: seq<Statement>, depth: nat): Circuit
  {
    inputs => Simulate(lib, stmts, inputs, depth)
  }

  /** One line of the table: the inputs, then the simulated outputs. */
  function TableRow(run: Circuit, ins: seq<string>, i: nat): Result<seq<int>, SimError>
    requires i < Pow2(|ins|)
  {
    var bits := Digits(i, |ins|);
    var outs := run(InputMap(ins, bits));
    if outs.Err? then Err(outs.error) else Ok(bits + outs.value)
  }

  /** The first `k` lines, or the failure of the first line that fails. */
  function RowsUpTo(run: Circuit, ins: seq<string>, k: nat): (r: Result<seq<seq<int>>, SimError>)
    requires k <= Pow2(|ins|)
    ensures r.Ok? ==> |r.value| == k
  {
    if k == 0 then Ok([])
    else
      var prev := RowsUpTo(run, ins, k - 1);
      if prev.Err? then prev
      else
        var row := TableRow(run, ins, k - 1);
        if row.Err? then Err(row.error) else Ok(prev.value + [row.value])
  }

  /** The whole table; more than six inputs are refused before anything is simulated. */
  function Table(lib: Library, stmts: seq<Statement>, depth: nat): (r: Result<seq<seq<int>>, SimError>)
    ensures r.Ok? ==> PortsOf(stmts).Ok? && |PortsOf(stmts).value.ins| <= MaxInputs
  {
    var ports := PortsOf(stmts);
    if ports.Err? then Err(ports.error)
    else if |ports.value.ins| > MaxInputs then Err(TooManyInputs(|ports.value.ins|))
    else RowsUpTo(CircuitOf(lib, stmts, depth), ports.value.ins, Pow2(|ports.value.ins|))
  }

  /** Every successful prefix of the table holds, at each position i, the digits of i and then the circuit's outputs on them. */
  lemma {:induction false} RowsUpToShape(run: Circuit, ins: seq<string>, k: nat)
    requires k <= Pow2(|ins|)
    requires RowsUpTo(run, ins, k).Ok?
    ensures forall i :: 0 <= i < k ==>
      run(InputMap(ins, Digits(i, |ins|))).Ok? &&
      RowsUpTo(run, ins, k).value[i] == Digits(i, |ins|) + run(InputMap(ins, Digits(i, |ins|))).value
  {
    if k > 0 {
      RowsUpToShape(run, ins, k - 1);
      var prev := RowsUpTo(run, ins, k - 1).value;
      var row := TableRow(run, ins, k - 1);
      var rows := RowsUpTo(run, ins, k).value;
      assert rows == prev + [row.value];
      assert row.Ok? && row.value == Digits(k - 1, |ins|) + run(InputMap(ins, Digits(k - 1, |ins|))).value;
      forall i | 0 <= i < k
        ensures run(InputMap(ins, Digits(i, |ins|))).Ok?
        ensures rows[i] == Digits(i, |ins|) + run(InputMap(ins, Digits(i, |ins|))).value
      {
        if i < k - 1 {
          assert rows[i] == prev[i];
        }
      }
    }
  }

  /** The circuit simulates on each of the first `k` input tuples. */
  predicate RowsRun(run: Circuit, ins: seq<string>, k: nat)
    requires k <= Pow2(|ins|)
  {
    forall i :: 0 <= i < k ==> run(InputMap(ins, Digits(i, |ins|))).Ok?
  }

  /** The first `k` lines are produced when each of them simulates. */
  lemma {:induction false} RowsUpToProduced(run: Circuit, ins: seq<string>, k: nat)
    requires k <= Pow2(|ins|)
    requires RowsRun(run, ins, k)
    ensures RowsUpTo(run, ins, k).Ok?
  {
    if k > 0 {
      RowsUpToProduced(run, ins, k - 1);
      assert run(InputMap(ins, Digits(k - 1, |ins|))).Ok?;
    }
  }

  /** The first `k` lines are produced exactly when each of them simulates. */
  lemma {:induction false} RowsUpToOk(run: Circuit, ins: seq<string>, k: nat)
    requires k <= Pow2(|ins|)
    ensures RowsUpTo(run, ins, k).Ok? <==> RowsRun(run, ins, k)
  {
    if RowsUpTo(run, ins, k).Ok? {
      RowsUpToShape(run, ins, k);
    } else if RowsRun(run, ins, k) {
      RowsUpToProduced(run, ins, k);
      assert false;
    }
  }

  /** Once a line fails, the table is that failure: later lines are never simulated. */
  lemma {:induction false} FirstFailureStands(run: Circuit, ins: seq<string>, k: nat, k': nat)
    requires k <= k' <= Pow2(|ins|)
    requires RowsUpTo(run, ins, k).Err?
    ensures RowsUpTo(run, ins, k') == RowsUpTo(run, ins, k)
    decreases k' - k
  {
    if k < k' {
      FirstFailureStands(run, ins, k, k' - 1);
    }
  }

  /**
   * A table that is produced has exactly 2^n rows, row i starting with the
   * i-th input tuple of `product([0, 1], repeat=n)` followed by one 0/1
   * value per declared output.
   */
  lemma TableShape(lib: Library, stmts: seq<Statement>, depth: nat)
    requires Table(lib, stmts, depth).Ok?
    ensures PortsOf(stmts).Ok?
    ensures var ports := PortsOf(stmts).value;
      var rows := Table(lib, stmts, depth).value;
      && |rows| == Pow2(|ports.ins|)
      && forall i :: 0 <= i < |rows| ==>
           && |rows[i]| == |ports.ins| + |ports.outs|
           && rows[i][..|ports.ins|] == Product(|ports.ins|)[i]
           && Simulate(lib, stmts, InputMap(ports.ins, Digits(i, |ports.ins|)), depth).Ok?
           && rows[i][|ports.ins|..] == Simulate(lib, stmts, InputMap(ports.ins, Digits(i, |ports.ins|)), depth).value
           && Bits(rows[i])
  {
    var ports := PortsOf(stmts).value;
    var n := |ports.ins|;
    var run := CircuitOf(lib, stmts, depth);
    var rows := RowsUpTo(run, ports.ins, Pow2(n)).value;
    RowsUpToShape(run, ports.ins, Pow2(n));
    ProductIsCounting(n);
    forall i | 0 <= i < |rows|
      ensures |rows[i]| == n + |ports.outs| && rows[i][..n] == Product(n)[i] && Bits(rows[i])
      ensures Simulate(lib, stmts, InputMap(ports.ins, Digits(i, n)), depth).Ok?
      ensures rows[i][n..] == Simulate(lib, stmts, InputMap(ports.ins, Digits(i, n)), depth).value
    {
      var bits := Digits(i, n);
      var m := InputMap(ports.ins, bits);
      DigitsAreBits(i, n);
      AssignBinary(map[], ports.ins, bits);
      SimulateBinary(lib, stmts, m, depth);
      assert run(m) == Simulate(lib, stmts, m, depth);
      var outs := run(m).value;
      assert rows[i] == bits + outs;
      assert rows[i][..n] == bits;
      assert rows[i][n..] == outs;
    }
  }

  /**
   * A table is produced exactly when the ports read cleanly, there are at
   * most six inputs, and the circuit simulates on every input tuple.
   */
  lemma TableOk(lib: Library, stmts: seq<Statement>, depth: nat)
    ensures Table(lib, stmts, depth).Ok? <==>
      && PortsOf(stmts).Ok?
      && |PortsOf(stmts).value.ins| <= MaxInputs
      && forall i :: 0 <= i < Pow2(|PortsOf(stmts).value.ins|) ==>
           Simulate(lib, stmts, InputMap(PortsOf(stmts).value.ins, Digits(i, |PortsOf(stmts).value.ins|)), depth).Ok?
  {
    if PortsOf(stmts).Ok? && |PortsOf(stmts).value.ins| <= MaxInputs {
      var ins := PortsOf(stmts).value.ins;
      assert Table(lib, stmts, depth) == RowsUpTo(CircuitOf(lib, stmts, depth), ins, Pow2(|ins|));
      RowsUpToOk(CircuitOf(lib, stmts, depth), ins, Pow2(|ins|));
      CircuitRowsRun(lib, stmts, depth, ins, Pow2(|ins|));
    }
  }

  /** The table's circuit runs on a tuple exactly when `simulate_circuit` succeeds on it. */
  lemma CircuitRowsRun(lib: Library, stmts: seq<Statement>, depth: nat, ins: seq<string>, k: nat)
    requires k <= Pow2(|ins|)
    ensures RowsRun(CircuitOf(lib, stmts, depth), ins, k) <==>
      forall i :: 0 <= i < k ==> Simulate(lib, stmts, InputMap(ins, Digits(i, |ins|)), depth).Ok?
  {
    var run := CircuitOf(lib, stmts, depth);
    if RowsRun(run, ins, k) {
      forall i | 0 <= i < k
        ensures Simulate(lib, stmts, InputMap(ins, Digits(i, |ins|)), depth).Ok?
      {
        assert run(InputMap(ins, Digits(i, |ins|))).Ok?;
      }
    } else {
      var i :| 0 <= i < k && !run(InputMap(ins, Digits(i, |ins|))).Ok?;
      assert !Simulate(lib, stmts, InputMap(ins, Digits(i, |ins|)), depth).Ok?;
    }
  }

  /**
   * With more than six inputs the table is refused before anything is
   * simulated: the answer does not depend on the sub-circuit library or on
   * the nesting bound, only on the port declarations.
   */
  lemma TooWideRefused(lib: Library, stmts: seq<Statement>, depth: nat)
    requires PortsOf(stmts).Ok? && |PortsOf(stmts).value.ins| > MaxInputs
    ensures Table(lib, stmts, depth) == Err(TooManyInputs(|PortsOf(stmts).value.ins|))
    ensures forall lib': Library, depth': nat :: Table(lib', stmts, depth') == Table(lib, stmts, depth)
  {
  }

  /** The `generateTruth` branch of `readfile`, on an already-read netlist. */
  method GenerateTable(lib: Library, stmts: seq<Statement>, depth: nat) returns (r: Result<seq<seq<int>>, SimError>)
    ensures r == Table(lib, stmts, depth)
  {
    var ports := PortsOf(stmts);
    if ports.Err? {
      return Err(ports.error);
    }
    var ins := ports.value.ins;
    if |ins| > MaxInputs {
      return Err(TooManyInputs(|ins|));
    }
    r := EnumerateRows(lib, stmts, ins, depth, CircuitOf(lib, stmts, depth));
  }

  /** `run` gives, for every input map, what simulating the netlist gives. */
  ghost predicate Runs(run: Circuit, lib: Library, stmts: seq<Statement>, depth: nat)
  {
    forall m {:trigger Simulate(lib, stmts, m, depth)} :: run(m) == Simulate(lib, stmts, m, depth)
  }

  /** `for values in product([0, 1], repeat=len(portinputs))`, one simulation per line. */
  method EnumerateRows(lib: Library, stmts: seq<Statement>, ins: seq<string>, depth: nat, ghost run: Circuit)
    returns (r: Result<seq<seq<int>>, SimError>)
    requires Runs(run, lib, stmts, depth)
    ensures r == RowsUpTo(run, ins, Pow2(|ins|))
  {
    var rows: seq<seq<int>> := [];
    for i := 0 to Pow2(|ins|)
      invariant RowsUpTo(run, ins, i) == Ok(rows)
    {
      var row := SimulateRow(lib, stmts, ins, i, depth, run);
      if row.Err? {
        RowFails(run, ins, rows, i);
        return Err(row.error);
      }
      RowAppends(run, ins, rows, i);
      rows := rows + [row.value];
    }
    return Ok(rows);
  }

  /** A failing line ends the whole table with its failure. */
  lemma RowFails(run: Circuit, ins: seq<string>, rows: seq<seq<int>>, i: nat)
    requires i < Pow2(|ins|) && RowsUpTo(run, ins, i) == Ok(rows) && TableRow(run, ins, i).Err?
    ensures RowsUpTo(run, ins, Pow2(|ins|)) == Err(TableRow(run, ins, i).error)
  {
    FirstFailureStands(run, ins, i + 1, Pow2(|ins|));
  }

  /** A successful line is appended to the table. */
  lemma RowAppends(run: Circuit, ins: seq<string>, rows: seq<seq<int>>, i: nat)
    requires i < Pow2(|ins|) && RowsUpTo(run, ins, i) == Ok(rows) && TableRow(run, ins, i).Ok?
    ensures RowsUpTo(run, ins, i + 1) == Ok(rows + [TableRow(run, ins, i).value])
  {
  }

  /** The inputs of line i and the outputs `simulate_circuit` gives for them. */
  method SimulateRow(lib: Library, stmts: seq<Statement>, ins: seq<string>, i: nat, depth: nat, ghost run: Circuit)
    returns (r: Result<seq<int>, SimError>)
    requires i < Pow2(|ins|)
    requires Runs(run, lib, stmts, depth)
    ensures r == TableRow(run, ins, i)
  {
    var bits := Digits(i, |ins|);
    var outs := Run(lib, stmts, InputMap(ins, bits), depth);
    assert outs == run(InputMap(ins, bits));
    if outs.Err? {
      return Err(outs.error);
    }
    return Ok(bits + outs.value);
  }
}
