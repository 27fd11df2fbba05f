/**
 * Switch-level evaluation of a resolved netlist, `simulate_circuit`: every
 * wire starts at 0, the rails and the caller's inputs are set, then the
 * resolved statements fire in order; an INST statement simulates its
 * sub-circuit recursively and stores the sub-circuit's outputs.
 */
module Simulator {
  import opened Wrappers
  import opened Netlist
  import opened Resolve

  /** The netlist files under `output/`, by circuit name, as lines of text. */
  type Files = map<string, seq<string>>

  /**
   * The sub-circuit netlists, by circuit name, each as the statements the
   * reader makes of its file. Reading a file again gives the same
   * statements, so reading each file once stands for the source's re-reads.
   */
  type Library = map<string, seq<Statement>>

  function Parsed(files: Files): Library
  {
    map name | name in files :: Statements(files[name])
  }

  /** `grabinputs`/`graboutputs` on `output/<name>`: FileNotFoundError when the netlist is missing. */
  function SubPorts(lib: Library, name: string): (r: Result<Ports, SimError>)
    ensures r.Err? ==> r.error == MissingNetlist(name) || r.error.Malformed?
  {
    if name !in lib then Err(MissingNetlist(name)) else PortsOf(lib[name])
  }

  function LookupIn(lib: Library): PortLookup
  {
    name => SubPorts(lib, name)
  }

  /** `wire = list(portinputs + portoutputs) + ['VDD', 'GND']`. */
  function InitialWires(p: Ports): set<string>
  {
    Elems(p.ins) + Elems(p.outs) + {"VDD", "GND"}
  }

  /** `[values[w] for w in names]`, raising KeyError at the first name without a value. */
  function Lookup(values: map<string, int>, names: seq<string>): (r: Result<seq<int>, SimError>)
    ensures r.Ok? <==> forall i :: 0 <= i < |names| ==> names[i] in values
    ensures r.Ok? ==> |r.value| == |names| && forall i :: 0 <= i < |names| ==> r.value[i] == values[names[i]]
    ensures r.Err? ==> r.error.MissingWire? && r.error.name in names && r.error.name !in values
  {
    if names == [] then Ok([])
    else if names[0] !in values then Err(MissingWire(names[0]))
    else
      var rest := Lookup(values, names[1..]);
      assert forall i :: 1 <= i < |names| ==> names[i] == names[1..][i - 1];
      if rest.Err? then rest else Ok([values[names[0]]] + rest.value)
  }

  /** The stores `m[keys[i]] = vals[i]` for i = 0, 1, ... in turn. */
  function Assign(m: map<string, int>, keys: seq<string>, vals: seq<int>): (r: map<string, int>)
    requires |keys| == |vals|
    ensures r.Keys == m.Keys + Elems(keys)
  {
    if keys == [] then m
    else Assign(m, keys[..|keys| - 1], vals[..|vals| - 1])[keys[|keys| - 1] := vals[|vals| - 1]]
  }

  /** After the stores, a key holds the value of its last store, and an untouched key its old value. */
  lemma {:induction false} AssignLastWins(m: map<string, int>, keys: seq<string>, vals: seq<int>, k: string)
    requires |keys| == |vals|
    ensures k !in keys && k in m ==> Assign(m, keys, vals)[k] == m[k]
    ensures forall j :: 0 <= j < |keys| && keys[j] == k && k !in keys[j + 1..] ==> Assign(m, keys, vals)[k] == vals[j]
  {
    if keys != [] {
      var n := |keys|;
      var init, vinit := keys[..n - 1], vals[..n - 1];
      AssignLastWins(m, init, vinit, k);
      assert keys == init + [keys[n - 1]];
      forall j | 0 <= j < n && keys[j] == k && k !in keys[j + 1..]
        ensures Assign(m, keys, vals)[k] == vals[j]
      {
        if j < n - 1 {
          assert keys[n - 1] in keys[j + 1..];
          assert init[j + 1..] == keys[j + 1..n - 1];
          assert init[j] == k && vinit[j] == vals[j];
        }
      }
    }
  }

  /**
   * `simulatedinputs`: every wire 0, then VDD = 1 and GND = 0, then each
   * declared input pin found in the caller's map takes the caller's value.
   */
  function Initial(known: set<string>, ins: seq<string>, inputs: map<string, int>): (v: map<string, int>)
    ensures forall k :: k in v <==> k in known || k == "VDD" || k == "GND" || (k in ins && k in inputs)
    ensures forall k :: k in v ==> v[k] == (if k in ins && k in inputs then inputs[k] else if k == "VDD" then 1 else 0)
  {
    if ins == [] then (map w | w in known :: 0)["VDD" := 1]["GND" := 0]
    else
      var pin := ins[|ins| - 1];
      assert ins == ins[..|ins| - 1] + [pin];
      var v := Initial(known, ins[..|ins| - 1], inputs);
      if pin in inputs then v[pin := inputs[pin]] else v
  }

  /** The initialisation as the source runs it: the dict comprehension, the rails, then the loop over the pins. */
  method InitValues(known: set<string>, ins: seq<string>, inputs: map<string, int>) returns (values: map<string, int>)
    ensures values == Initial(known, ins, inputs)
  {
    values := map w | w in known :: 0;
    values := values["VDD" := 1];
    values := values["GND" := 0];
    for i := 0 to |ins|
      invariant values == Initial(known, ins[..i], inputs)
    {
      assert ins[..i + 1][..i] == ins[..i];
      if ins[i] in inputs {
        values := values[ins[i] := inputs[ins[i]]];
      }
    }
    assert ins[..|ins|] == ins;
  }

  /** A transistor statement conducts: an NMOS whose gate is 1 or a PMOS whose gate is 0. */
  predicate Conducts(h: Statement, values: map<string, int>)
    requires |h| >= 3 && h[2] in values
  {
    (Keyword(h) == "NMOS" && values[h[2]] == 1) || (Keyword(h) == "PMOS" && values[h[2]] == 0)
  }

  /** The whole simulation of a netlist, with INST nesting bounded by `depth`. */
  function Simulate(lib: Library, stmts: seq<Statement>, inputs: map<string, int>, depth: nat): (r: Result<seq<int>, SimError>)
    ensures r.Ok? ==> PortsOf(stmts).Ok? && |r.value| == |PortsOf(stmts).value.outs|
    decreases depth, 2, 0
  {
    var ports := PortsOf(stmts);
    if ports.Err? then Err(ports.error)
    else
      var res := ResolveFrom(LookupIn(lib), Devices(stmts), [], InitialWires(ports.value), 0);
      if res.Err? then Err(res.error)
      else if res.value.Stuck? then Err(Unresolved(res.value.pending, res.value.known))
      else
        var v := Evaluate(lib, res.value.order, Initial(res.value.known, ports.value.ins, inputs), depth);
        if v.Err? then Err(v.error) else Lookup(v.value, ports.value.outs)
  }

  /** The `for each in correct` loop: fire the resolved statements in order. */
  function Evaluate(lib: Library, rs: seq<Statement>, values: map<string, int>, depth: nat): (r: Result<map<string, int>, SimError>)
    ensures r.Ok? ==> values.Keys <= r.value.Keys
    decreases depth, 1, |rs|
  {
    if rs == [] then Ok(values)
    else
      var v := Fire(lib, rs[0], values, depth);
      if v.Err? then Err(v.error) else Evaluate(lib, rs[1..], v.value, depth)
  }

  /**
   * One resolved statement. A conducting transistor copies its source to its
   * drain and a blocked one changes nothing; an INST simulates its
   * sub-circuit. Lookups raise KeyError and indexing IndexError in the order
   * the source evaluates them.
   */
  function Fire(lib: Library, h: Statement, values: map<string, int>, depth: nat): (r: Result<map<string, int>, SimError>)
    ensures r.Ok? ==> values.Keys <= r.value.Keys
    ensures Keyword(h) != "INST" && r.Ok? ==>
      forall k :: k in values && (|h| < 5 || k != h[4]) ==> r.value[k] == values[k]
    ensures Keyword(h) != "INST" && |h| >= 5 && h[2] in values && h[3] in values ==>
      r == Ok(if Conducts(h, values) then values[h[4] := values[h[3]]] else values)
    decreases depth, 0, 2
  {
    if Keyword(h) == "INST" then FireInst(lib, h, values, depth)
    else if Keyword(h) != "NMOS" && Keyword(h) != "PMOS" then Ok(values)
    else if |h| < 3 then Err(Malformed(h))
    else if h[2] !in values then Err(MissingWire(h[2]))
    else if !Conducts(h, values) then Ok(values)
    else if |h| < 4 then Err(Malformed(h))
    else if h[3] !in values then Err(MissingWire(h[3]))
    else if |h| < 5 then Err(Malformed(h))
    else Ok(values[h[4] := values[h[3]]])
  }

  /**
   * The sub-circuit's input map: pin i takes the value of actual `h[3+i]`,
   * a pin named twice keeping the later value.
   */
  function BindInputs(pins: seq<string>, h: Statement, values: map<string, int>): (r: Result<map<string, int>, SimError>)
    ensures r.Ok? ==> r.value.Keys == Elems(pins)
  {
    var actuals := Lookup(values, Span(h, 3, 3 + |pins|));
    if actuals.Err? then Err(actuals.error)
    else if |actuals.value| < |pins| then Err(Malformed(h))
    else Ok(Assign(map[], pins, actuals.value))
  }

  /**
   * An INST statement: its sub-circuit is simulated one level down on the
   * bound inputs, and the m outputs are stored, in order, on the actuals that
   * follow the n input actuals.
   */
  function FireInst(lib: Library, h: Statement, values: map<string, int>, depth: nat): (r: Result<map<string, int>, SimError>)
    ensures r.Ok? ==> values.Keys <= r.value.Keys
    ensures depth == 0 ==> r.Err?
    decreases depth, 0, 1
  {
    if |h| < 2 then Err(Malformed(h))
    else
      var p := SubPorts(lib, h[1]);
      if p.Err? then Err(p.error)
      else
        var bound := BindInputs(p.value.ins, h, values);
        if bound.Err? then Err(bound.error)
        else Descend(lib, h, lib[h[1]], bound.value, Results(h, p.value), values, depth)
  }

  /**
   * The sub-circuit `sub` run one level down on `inputs`, its outputs stored
   * in order on the wires `dest`; IndexError when `h` has too few actuals.
   */
  function Descend(lib: Library, h: Statement, sub: seq<Statement>, inputs: map<string, int>,
                   dest: seq<string>, values: map<string, int>, depth: nat): (r: Result<map<string, int>, SimError>)
    ensures r.Ok? ==> values.Keys <= r.value.Keys
    ensures depth == 0 ==> r == Err(DepthExhausted)
    decreases depth, 0, 0
  {
    if depth == 0 then Err(DepthExhausted)
    else Deliver(h, dest, values, Simulate(lib, sub, inputs, depth - 1))
  }

  /** The sub-circuit's outputs, or its failure, stored on the wires `dest`. */
  function Deliver(h: Statement, dest: seq<string>, values: map<string, int>, outs: Result<seq<int>, SimError>): (r: Result<map<string, int>, SimError>)
    ensures r.Ok? ==> values.Keys <= r.value.Keys
  {
    if outs.Err? then Err(outs.error)
    else if |dest| != |outs.value| then Err(Malformed(h))
    else Ok(Assign(values, dest, outs.value))
  }

  /**
   * Binding succeeds exactly when every input actual `h[3+i]` exists and has
   * a value; pin `i` then takes the value of `h[3+i]` unless a later pin of
   * the same name overrides it.
   */
  lemma BindInputsValues(pins: seq<string>, h: Statement, values: map<string, int>, i: nat)
    ensures BindInputs(pins, h, values).Ok? <==>
      (|pins| == 0 || 3 + |pins| <= |h|) && forall j :: 3 <= j < 3 + |pins| && j < |h| ==> h[j] in values
    ensures BindInputs(pins, h, values).Ok? && i < |pins| && pins[i] !in pins[i + 1..] ==>
      3 + i < |h| && h[3 + i] in values && BindInputs(pins, h, values).value[pins[i]] == values[h[3 + i]]
  {
    var span := Span(h, 3, 3 + |pins|);
    var actuals := Lookup(values, span);
    assert forall j :: 3 <= j < 3 + |pins| && j < |h| ==> h[j] == span[j - 3];
    if actuals.Ok? && |actuals.value| == |pins| && i < |pins| {
      AssignLastWins(map[], pins, actuals.value, pins[i]);
    }
  }

  /**
   * Storing succeeds exactly when the sub-circuit succeeded with one value
   * per destination; wire `dest[j]` then holds output `j` unless a later
   * destination names the same wire, and every other wire keeps its value.
   */
  lemma DeliverStores(h: Statement, dest: seq<string>, values: map<string, int>, outs: Result<seq<int>, SimError>, k: string)
    ensures Deliver(h, dest, values, outs).Ok? <==> outs.Ok? && |dest| == |outs.value|
    ensures Deliver(h, dest, values, outs).Ok? && k !in dest && k in values ==> Deliver(h, dest, values, outs).value[k] == values[k]
    ensures Deliver(h, dest, values, outs).Ok? ==>
      forall j :: 0 <= j < |dest| && dest[j] == k && k !in dest[j + 1..] ==> Deliver(h, dest, values, outs).value[k] == outs.value[j]
  {
    if outs.Ok? && |dest| == |outs.value| {
      AssignLastWins(values, dest, outs.value, k);
    }
  }

  /**
   * A successful INST names a circuit of the library whose ports read
   * cleanly, binds its inputs, and has depth left for the sub-circuit, which
   * succeeds.
   */
  lemma FireInstSucceeds(lib: Library, h: Statement, values: map<string, int>, depth: nat)
    requires FireInst(lib, h, values, depth).Ok?
    ensures depth > 0 && |h| >= 2 && h[1] in lib && PortsOf(lib[h[1]]).Ok?
    ensures BindInputs(PortsOf(lib[h[1]]).value.ins, h, values).Ok?
    ensures Simulate(lib, lib[h[1]], BindInputs(PortsOf(lib[h[1]]).value.ins, h, values).value, depth - 1).Ok?
  {
  }

  /**
   * The data flow of a successful INST with ports `p`: pin `i` of the
   * sub-circuit takes the value of actual `h[3+i]` (a later pin of the same
   * name wins), output `j` is stored on actual `h[3+n+j]` (a later repeat of
   * that wire wins), and every other wire keeps its value.
   */
  lemma FireInstDataFlow(lib: Library, h: Statement, values: map<string, int>, depth: nat,
                         p: Ports, inputs: map<string, int>, r: map<string, int>, k: string)
    requires FireInst(lib, h, values, depth) == Ok(r)
    requires |h| >= 2 && h[1] in lib && PortsOf(lib[h[1]]) == Ok(p) && BindInputs(p.ins, h, values) == Ok(inputs)
    ensures forall i :: 0 <= i < |p.ins| && p.ins[i] !in p.ins[i + 1..] ==> 3 + i < |h| && inputs[p.ins[i]] == values[h[3 + i]]
    ensures depth > 0 && Simulate(lib, lib[h[1]], inputs, depth - 1).Ok?
    ensures |Results(h, p)| == |p.outs| && forall j :: 0 <= j < |p.outs| ==> Results(h, p)[j] == h[3 + |p.ins| + j]
    ensures k !in Results(h, p) && k in values ==> r[k] == values[k]
    ensures forall j :: 0 <= j < |p.outs| && Results(h, p)[j] == k && k !in Results(h, p)[j + 1..] ==>
      k in r && r[k] == Simulate(lib, lib[h[1]], inputs, depth - 1).value[j]
  {
    assert FireInst(lib, h, values, depth) == Descend(lib, h, lib[h[1]], inputs, Results(h, p), values, depth);
    DescendDelivers(lib, h, lib[h[1]], inputs, Results(h, p), values, depth);
    var outs := Simulate(lib, lib[h[1]], inputs, depth - 1);
    DeliverStores(h, Results(h, p), values, outs, k);
    BoundPins(p.ins, h, values, inputs);
    ResultsAt(h, p);
  }

  /** Output `j` of an INST goes to the actual `h[3+n+j]`. */
  lemma ResultsAt(h: Statement, p: Ports)
    ensures forall j :: 0 <= j < |Results(h, p)| ==> 3 + |p.ins| + j < |h| && Results(h, p)[j] == h[3 + |p.ins| + j]
  {
    var span := Span(h, 3 + |p.ins|, 3 + |p.ins| + |p.outs|);
    assert Results(h, p) == span;
    forall j | 0 <= j < |span|
      ensures 3 + |p.ins| + j < |h| && span[j] == h[3 + |p.ins| + j]
    {
    }
  }

  /** Every pin not named again later takes the value of its actual. */
  lemma BoundPins(pins: seq<string>, h: Statement, values: map<string, int>, inputs: map<string, int>)
    requires BindInputs(pins, h, values) == Ok(inputs)
    ensures forall i :: 0 <= i < |pins| && pins[i] !in pins[i + 1..] ==> 3 + i < |h| && inputs[pins[i]] == values[h[3 + i]]
  {
    forall i | 0 <= i < |pins| && pins[i] !in pins[i + 1..]
      ensures 3 + i < |h| && inputs[pins[i]] == values[h[3 + i]]
    {
      BindInputsValues(pins, h, values, i);
    }
  }

  /** One statement as the evaluation loop runs it. */
  method Step(lib: Library, h: Statement, values: map<string, int>, depth: nat) returns (r: Result<map<string, int>, SimError>)
    ensures r == Fire(lib, h, values, depth)
    decreases depth, 0, 2
  {
    if Keyword(h) == "INST" {
      r := StepInst(lib, h, values, depth);
      return;
    }
    if Keyword(h) != "NMOS" && Keyword(h) != "PMOS" {
      return Ok(values);
    }
    if |h| < 3 {
      return Err(Malformed(h));
    }
    if h[2] !in values {
      return Err(MissingWire(h[2]));
    }
    if (Keyword(h) == "NMOS" && values[h[2]] == 1) || (Keyword(h) == "PMOS" && values[h[2]] == 0) {
      if |h| < 4 {
        return Err(Malformed(h));
      }
      if h[3] !in values {
        return Err(MissingWire(h[3]));
      }
      if |h| < 5 {
        return Err(Malformed(h));
      }
      return Ok(values[h[4] := values[h[3]]]);
    }
    return Ok(values);
  }

  /** The INST branch: bind, recurse, store. */
  method StepInst(lib: Library, h: Statement, values: map<string, int>, depth: nat) returns (r: Result<map<string, int>, SimError>)
    requires Keyword(h) == "INST"
    ensures r == FireInst(lib, h, values, depth)
    decreases depth, 0, 1
  {
    if |h| < 2 {
      return Err(Malformed(h));
    }
    var p := SubPorts(lib, h[1]);
    if p.Err? {
      return Err(p.error);
    }
    var bound := Bind(p.value.ins, h, values);
    if bound.Err? {
      return Err(bound.error);
    }
    r := Instantiate(lib, h, lib[h[1]], bound.value, Results(h, p.value), values, depth);
  }

  /** Run the sub-circuit and store its outputs. */
  method Instantiate(lib: Library, h: Statement, sub: seq<Statement>, inputs: map<string, int>,
                     dest: seq<string>, values: map<string, int>, depth: nat) returns (r: Result<map<string, int>, SimError>)
    ensures r == Descend(lib, h, sub, inputs, dest, values, depth)
    decreases depth, 0, 0
  {
    if depth == 0 {
      r := Err(DepthExhausted);
    } else {
      var outs := Run(lib, sub, inputs, depth - 1);
      r := StoreOutputs(h, dest, values, outs);
      DescendDelivers(lib, h, sub, inputs, dest, values, depth);
    }
  }

  lemma DescendDelivers(lib: Library, h: Statement, sub: seq<Statement>, inputs: map<string, int>,
                        dest: seq<string>, values: map<string, int>, depth: nat)
    requires depth > 0
    ensures Descend(lib, h, sub, inputs, dest, values, depth) == Deliver(h, dest, values, Simulate(lib, sub, inputs, depth - 1))
  {
  }

  method StoreOutputs(h: Statement, dest: seq<string>, values: map<string, int>, outs: Result<seq<int>, SimError>)
    returns (r: Result<map<string, int>, SimError>)
    ensures r == Deliver(h, dest, values, outs)
  {
    if outs.Err? {
      return Err(outs.error);
    }
    if |dest| != |outs.value| {
      return Err(Malformed(h));
    }
    var v := Store(values, dest, outs.value);
    return Ok(v);
  }

  /** The first name without a value is the one Lookup reports. */
  lemma {:induction false} LookupFirstMissing(values: map<string, int>, names: seq<string>, k: nat)
    requires k < |names| && names[k] !in values
    requires forall j :: 0 <= j < k ==> names[j] in values
    ensures Lookup(values, names) == Err(MissingWire(names[k]))
  {
    if k > 0 {
      LookupFirstMissing(values, names[1..], k - 1);
    }
  }

  /** `input_values[sub_inputs[i]] = simulatedinputs[each[i+3]]` for each i in turn. */
  method Bind(pins: seq<string>, h: Statement, values: map<string, int>) returns (r: Result<map<string, int>, SimError>)
    ensures r == BindInputs(pins, h, values)
  {
    ghost var span := Span(h, 3, 3 + |pins|);
    var bound: map<string, int> := map[];
    ghost var got: seq<int> := [];
    for i := 0 to |pins|
      invariant i <= |span|
      invariant forall j :: 0 <= j < i ==> span[j] in values
      invariant |got| == i && forall j :: 0 <= j < i ==> got[j] == values[span[j]]
      invariant bound == Assign(map[], pins[..i], got)
    {
      if 3 + i >= |h| {
        assert |span| == i;
        assert Lookup(values, span).Ok?;
        return Err(Malformed(h));
      }
      assert span[i] == h[3 + i];
      if h[3 + i] !in values {
        LookupFirstMissing(values, span, i);
        return Err(MissingWire(h[3 + i]));
      }
      assert pins[..i + 1][..i] == pins[..i];
      bound := bound[pins[i] := values[h[3 + i]]];
      got := got + [values[h[3 + i]]];
    }
    assert Lookup(values, span).value == got;
    assert pins[..|pins|] == pins;
    return Ok(bound);
  }

  /** `simulatedinputs[each[i+3+numinputs]] = simulatedoutputs[i]` for each i in turn. */
  method Store(values: map<string, int>, wires: seq<string>, outs: seq<int>) returns (v: map<string, int>)
    requires |wires| == |outs|
    ensures v == Assign(values, wires, outs)
  {
    v := values;
    for i := 0 to |wires|
      invariant v == Assign(values, wires[..i], outs[..i])
    {
      assert wires[..i + 1][..i] == wires[..i] && outs[..i + 1][..i] == outs[..i];
      v := v[wires[i] := outs[i]];
    }
    assert wires[..|wires|] == wires && outs[..|wires|] == outs;
  }

  /** `[simulatedinputs[pin] for pin in portoutputs]`. */
  method ReadOutputs(values: map<string, int>, outs: seq<string>) returns (r: Result<seq<int>, SimError>)
    ensures r == Lookup(values, outs)
  {
    var got: seq<int> := [];
    for i := 0 to |outs|
      invariant forall j :: 0 <= j < i ==> outs[j] in values
      invariant |got| == i && forall j :: 0 <= j < i ==> got[j] == values[outs[j]]
    {
      if outs[i] !in values {
        LookupFirstMissing(values, outs, i);
        return Err(MissingWire(outs[i]));
      }
      got := got + [values[outs[i]]];
    }
    assert Lookup(values, outs).value == got;
    return Ok(got);
  }

  /** `simulate_circuit(filename, inputs)`: read the netlist, then run it against the library. */
  method SimulateCircuit(files: Files, lines: seq<string>, inputs: map<string, int>, depth: nat)
    returns (r: Result<seq<int>, SimError>)
    ensures r == Simulate(Parsed(files), Statements(lines), inputs, depth)
  {
    var stmts := ReadStatements(lines);
    r := Run(Parsed(files), stmts, inputs, depth);
  }

  /** The body of `simulate_circuit` after the file is read. */
  method Run(lib: Library, stmts: seq<Statement>, inputs: map<string, int>, depth: nat)
    returns (r: Result<seq<int>, SimError>)
    ensures r == Simulate(lib, stmts, inputs, depth)
    decreases depth, 2, 0
  {
    var ports := PortsOf(stmts);
    if ports.Err? {
      return Err(ports.error);
    }
    var res := ResolveQueue(LookupIn(lib), Devices(stmts), InitialWires(ports.value));
    if res.Err? {
      return Err(res.error);
    }
    if res.value.Stuck? {
      return Err(Unresolved(res.value.pending, res.value.known));
    }
    var values := InitValues(res.value.known, ports.value.ins, inputs);
    var v := EvaluateOrder(lib, res.value.order, values, depth);
    if v.Err? {
      return Err(v.error);
    }
    r := ReadOutputs(v.value, ports.value.outs);
  }

  /** `for each in correct:` firing the resolved statements one after another. */
  method EvaluateOrder(lib: Library, order: seq<Statement>, values0: map<string, int>, depth: nat)
    returns (r: Result<map<string, int>, SimError>)
    ensures r == Evaluate(lib, order, values0, depth)
    decreases depth, 1, |order| + 1
  {
    var values := values0;
    assert order[0..] == order;
    for i := 0 to |order|
      invariant Evaluate(lib, order[i..], values, depth) == Evaluate(lib, order, values0, depth)
    {
      assert order[i..][0] == order[i] && order[i..][1..] == order[i + 1..];
      var s := Step(lib, order[i], values, depth);
      if s.Err? {
        return Err(s.error);
      }
      values := s.value;
    }
    return Ok(values);
  }
}
