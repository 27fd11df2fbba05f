/**
 * What the evaluation guarantees once the resolution loop has ordered the
 * statements: no wire is ever read before it has a value (so the KeyError
 * branches of the model are dead), and a circuit driven with 0/1 inputs
 * only ever computes 0/1 values.
 */
module SimulatorFacts {
  import opened Wrappers
  import opened Netlist
  import opened Resolve
  import opened Simulator

  // ---------------------------------------------------------------------
  // No KeyError.

  /**
   * A netlist that simulates at all never fails on a missing wire: every
   * read in the evaluation and in the output comprehension finds a value,
   * whatever the caller's input map holds.
   */
  lemma {:induction false} SimulateNoMissingWire(lib: Library, stmts: seq<Statement>, inputs: map<string, int>, depth: nat)
    ensures Simulate(lib, stmts, inputs, depth).Err? ==> !Simulate(lib, stmts, inputs, depth).error.MissingWire?
    decreases depth, 2, 0
  {
    var r := Simulate(lib, stmts, inputs, depth);
    var ports := PortsOf(stmts);
    if ports.Err? {
      assert r == Err(ports.error);
    } else {
      var lookup := LookupIn(lib);
      var w0 := InitialWires(ports.value);
      var res := ResolveFrom(lookup, Devices(stmts), [], w0, 0);
      assert ReadFailures(lookup) by {
        forall name ensures lookup(name).Err? ==> lookup(name).error.Malformed? || lookup(name).error.MissingNetlist? {
          assert lookup(name) == SubPorts(lib, name);
        }
      }
      ResolveFromErrors(lookup, Devices(stmts), [], w0, 0);
      if res.Err? {
        assert r == Err(res.error);
      } else if res.value.Stuck? {
        assert r.error.Unresolved?;
      } else {
        ResolvedSettled(lookup, Devices(stmts), w0);
        var v0 := Initial(res.value.known, ports.value.ins, inputs);
        assert v0.Keys == res.value.known;
        EvaluateNoMissingWire(lib, res.value.order, v0, depth);
        var v := Evaluate(lib, res.value.order, v0, depth);
        if v.Err? {
          assert r == Err(v.error);
        } else {
          var outs := ports.value.outs;
          assert forall i :: 0 <= i < |outs| ==> outs[i] in v.value;
          assert r == Lookup(v.value, outs);
        }
      }
    }
  }

  /** A settled order evaluates without a missing wire and creates no new wire. */
  lemma {:induction false} EvaluateNoMissingWire(lib: Library, rs: seq<Statement>, values: map<string, int>, depth: nat)
    requires Settled(LookupIn(lib), rs, values.Keys)
    ensures Evaluate(lib, rs, values, depth).Err? ==> !Evaluate(lib, rs, values, depth).error.MissingWire?
    ensures Evaluate(lib, rs, values, depth).Ok? ==> Evaluate(lib, rs, values, depth).value.Keys == values.Keys
    decreases depth, 1, |rs|
  {
    if rs != [] {
      FireNoMissingWire(lib, rs[0], values, depth);
      var v := Fire(lib, rs[0], values, depth);
      if v.Ok? {
        assert forall i :: 0 <= i < |rs[1..]| ==> rs[1..][i] == rs[i + 1];
        EvaluateNoMissingWire(lib, rs[1..], v.value, depth);
      }
    }
  }

  /** A statement that is ready on the wires present reads only present wires and writes only present wires. */
  lemma FireNoMissingWire(lib: Library, h: Statement, values: map<string, int>, depth: nat)
    requires ReadyWith(LookupIn(lib), h, values.Keys)
    ensures Fire(lib, h, values, depth).Err? ==> !Fire(lib, h, values, depth).error.MissingWire?
    ensures Fire(lib, h, values, depth).Ok? ==> Fire(lib, h, values, depth).value.Keys == values.Keys
    decreases depth, 0, 2
  {
    if Keyword(h) == "INST" {
      FireInstNoMissingWire(lib, h, values, depth);
    } else {
      var c := CheckHead(LookupIn(lib), h, values.Keys);
      assert c == CheckTransistor(h, values.Keys);
      assert c.value.produced == [h[4]];
      assert c.value.produced[0] in values.Keys;
    }
  }

  lemma FireInstNoMissingWire(lib: Library, h: Statement, values: map<string, int>, depth: nat)
    requires Keyword(h) == "INST"
    requires ReadyWith(LookupIn(lib), h, values.Keys)
    ensures FireInst(lib, h, values, depth).Err? ==> !FireInst(lib, h, values, depth).error.MissingWire?
    ensures FireInst(lib, h, values, depth).Ok? ==> FireInst(lib, h, values, depth).value.Keys == values.Keys
    decreases depth, 0, 1
  {
    var c := CheckHead(LookupIn(lib), h, values.Keys);
    assert c == CheckInst(LookupIn(lib), h, values.Keys);
    assert |h| >= 2;
    var p := SubPorts(lib, h[1]);
    assert LookupIn(lib)(h[1]) == p;
    assert p.Ok? && c == CheckActuals(h, p.value, values.Keys);
    var actuals := Actuals(h, p.value);
    assert Fits(h, p.value) && forall j :: 0 <= j < |actuals| ==> actuals[j] in values;
    var bound := BindInputs(p.value.ins, h, values);
    assert bound.Ok?;
    DescendNoMissingWire(lib, h, lib[h[1]], p.value, bound.value, values, depth);
  }

  lemma DescendNoMissingWire(lib: Library, h: Statement, sub: seq<Statement>, p: Ports, inputs: map<string, int>,
                             values: map<string, int>, depth: nat)
    requires PortsOf(sub) == Ok(p)
    requires |Results(h, p)| == |p.outs|
    requires forall j :: 0 <= j < |Results(h, p)| ==> Results(h, p)[j] in values
    ensures Descend(lib, h, sub, inputs, Results(h, p), values, depth).Err? ==>
      !Descend(lib, h, sub, inputs, Results(h, p), values, depth).error.MissingWire?
    ensures Descend(lib, h, sub, inputs, Results(h, p), values, depth).Ok? ==>
      Descend(lib, h, sub, inputs, Results(h, p), values, depth).value.Keys == values.Keys
    decreases depth, 0, 0
  {
    var dest := Results(h, p);
    var r := Descend(lib, h, sub, inputs, dest, values, depth);
    if depth > 0 {
      var outs := Simulate(lib, sub, inputs, depth - 1);
      SimulateNoMissingWire(lib, sub, inputs, depth - 1);
      assert r == Deliver(h, dest, values, outs);
      if outs.Err? {
        assert r == Err(outs.error);
      } else {
        assert |outs.value| == |p.outs|;
        assert r == Ok(Assign(values, dest, outs.value));
      }
    }
  }

  // ---------------------------------------------------------------------
  // Logic levels.

  predicate Binary(values: map<string, int>)
  {
    forall k :: k in values ==> values[k] == 0 || values[k] == 1
  }

  predicate Bits(s: seq<int>)
  {
    forall i :: 0 <= i < |s| ==> s[i] == 0 || s[i] == 1
  }

  lemma {:induction false} AssignBinary(m: map<string, int>, keys: seq<string>, vals: seq<int>)
    requires |keys| == |vals|
    requires Binary(m) && Bits(vals)
    ensures Binary(Assign(m, keys, vals))
  {
    if keys != [] {
      AssignBinary(m, keys[..|keys| - 1], vals[..|vals| - 1]);
    }
  }

  /** Driven with 0/1 inputs, a circuit produces only 0/1 outputs, through any depth of instances. */
  lemma {:induction false} SimulateBinary(lib: Library, stmts: seq<Statement>, inputs: map<string, int>, depth: nat)
    requires Binary(inputs)
    ensures Simulate(lib, stmts, inputs, depth).Ok? ==> Bits(Simulate(lib, stmts, inputs, depth).value)
    decreases depth, 2, 0
  {
    var ports := PortsOf(stmts);
    if ports.Ok? {
      var res := ResolveFrom(LookupIn(lib), Devices(stmts), [], InitialWires(ports.value), 0);
      if res.Ok? && res.value.Resolved? {
        var v0 := Initial(res.value.known, ports.value.ins, inputs);
        EvaluateBinary(lib, res.value.order, v0, depth);
      }
    }
  }

  lemma {:induction false} EvaluateBinary(lib: Library, rs: seq<Statement>, values: map<string, int>, depth: nat)
    requires Binary(values)
    ensures Evaluate(lib, rs, values, depth).Ok? ==> Binary(Evaluate(lib, rs, values, depth).value)
    decreases depth, 1, |rs|
  {
    if rs != [] {
      FireBinary(lib, rs[0], values, depth);
      var v := Fire(lib, rs[0], values, depth);
      if v.Ok? {
        EvaluateBinary(lib, rs[1..], v.value, depth);
      }
    }
  }

  /** A transistor copies an existing level; an instance stores levels its sub-circuit computed. */
  lemma FireBinary(lib: Library, h: Statement, values: map<string, int>, depth: nat)
    requires Binary(values)
    ensures Fire(lib, h, values, depth).Ok? ==> Binary(Fire(lib, h, values, depth).value)
    decreases depth, 0, 2
  {
    if Keyword(h) == "INST" {
      FireInstBinary(lib, h, values, depth);
    }
  }

  lemma FireInstBinary(lib: Library, h: Statement, values: map<string, int>, depth: nat)
    requires Binary(values)
    ensures FireInst(lib, h, values, depth).Ok? ==> Binary(FireInst(lib, h, values, depth).value)
    decreases depth, 0, 1
  {
    if |h| >= 2 {
      var p := SubPorts(lib, h[1]);
      if p.Ok? {
        var bound := BindInputs(p.value.ins, h, values);
        if bound.Ok? {
          AssignBinary(map[], p.value.ins, Lookup(values, Span(h, 3, 3 + |p.value.ins|)).value);
          DescendBinary(lib, h, lib[h[1]], bound.value, Results(h, p.value), values, depth);
        }
      }
    }
  }

  lemma DescendBinary(lib: Library, h: Statement, sub: seq<Statement>, inputs: map<string, int>,
                      dest: seq<string>, values: map<string, int>, depth: nat)
    requires Binary(values) && Binary(inputs)
    ensures Descend(lib, h, sub, inputs, dest, values, depth).Ok? ==> Binary(Descend(lib, h, sub, inputs, dest, values, depth).value)
    decreases depth, 0, 0
  {
    if depth > 0 {
      var outs := Simulate(lib, sub, inputs, depth - 1);
      SimulateBinary(lib, sub, inputs, depth - 1);
      if outs.Ok? && |dest| == |outs.value| {
        AssignBinary(values, dest, outs.value);
      }
    }
  }
}
