/**
 * Reading a `.cmos` netlist the way simulate.py does: tokenise every line,
 * drop blank lines, stably sort the statements by their first token, then
 * pick out the declared ports and the device statements.
 */
module Netlist {
  import opened Wrappers
  import opened Text
  import opened Sorting

  /** One non-blank line, split on whitespace. */
  type Statement = seq<string>

  /** The failures of simulate.py, each of which it raises as a Python exception or never leaves. */
  datatype SimError =
    | Malformed(stmt: Statement)                              // IndexError: too few tokens
    | MissingWire(name: string)                               // KeyError: a wire with no value
    | MissingNetlist(name: string)                            // the sub-circuit file does not exist
    | Unresolved(pending: seq<Statement>, known: set<string>) // the resolution loop would spin forever
    | DepthExhausted                                          // INST nesting deeper than the bound
    | TooManyInputs(count: nat)                               // truth table refused

  datatype Ports = Ports(ins: seq<string>, outs: seq<string>)

  function Keyword(s: Statement): string
  {
    if s == [] then "" else s[0]
  }

  /** The sort key comparison of `result.sort(key=lambda x: x[0])`. */
  predicate KeywordLe(a: Statement, b: Statement)
  {
    StrLe(Keyword(a), Keyword(b))
  }

  /** The tokenised lines that are not blank, in file order. */
  function NonBlank(lines: seq<string>): (r: seq<Statement>)
    ensures forall k :: 0 <= k < |r| ==> r[k] != [] && AllTokens(r[k])
  {
    if lines == [] then []
    else
      var last := lines[|lines| - 1];
      TokenizeEmptyIffBlank(last);
      NonBlank(lines[..|lines| - 1]) + (if AllSpace(last) then [] else [Tokenize(last)])
  }

  /** The statements in the order simulate.py works on them. */
  function Statements(lines: seq<string>): seq<Statement>
  {
    SortBy(NonBlank(lines), KeywordLe)
  }

  /** The loop shared by `grabinputs`, `graboutputs` and `simulate_circuit`, then the sort. */
  method ReadStatements(lines: seq<string>) returns (stmts: seq<Statement>)
    ensures stmts == Statements(lines)
  {
    var result: seq<Statement> := [];
    for i := 0 to |lines|
      invariant result == NonBlank(lines[..i])
    {
      assert lines[..i + 1][..i] == lines[..i];
      var line := lines[i];
      if !AllSpace(line) {
        result := result + [Tokenize(line)];
      }
    }
    assert lines[..|lines|] == lines;
    stmts := SortBy(result, KeywordLe);
  }

  lemma KeywordLePreorder(s: seq<Statement>)
    ensures TotalPreorderOn(KeywordLe, s)
  {
    forall a, b | a in s && b in s ensures KeywordLe(a, b) || KeywordLe(b, a) {
      StrLeTotal(Keyword(a), Keyword(b));
    }
    forall a, b, c | a in s && b in s && c in s && KeywordLe(a, b) && KeywordLe(b, c)
      ensures KeywordLe(a, c)
    {
      StrLeTrans(Keyword(a), Keyword(b), Keyword(c));
    }
  }

  /** The statements of `s` whose first token is `kw`, in order. */
  function WithKeyword(s: seq<Statement>, kw: string): (r: seq<Statement>)
    ensures forall k :: 0 <= k < |r| ==> r[k] in s && Keyword(r[k]) == kw
  {
    if s == [] then [] else (if Keyword(s[0]) == kw then [s[0]] else []) + WithKeyword(s[1..], kw)
  }

  lemma {:induction false} EquivalentsAreKeyword(s: seq<Statement>, k: Statement)
    ensures Equivalents(s, k, KeywordLe) == WithKeyword(s, Keyword(k))
  {
    if s != [] {
      if KeywordLe(s[0], k) && KeywordLe(k, s[0]) {
        StrLeAntisym(Keyword(s[0]), Keyword(k));
      } else if Keyword(s[0]) == Keyword(k) {
        StrLeRefl(Keyword(k));
      }
      EquivalentsAreKeyword(s[1..], k);
    }
  }

  /**
   * The reader's statements are the non-blank lines, sorted by keyword, and
   * the sort keeps the file order among statements with the same keyword.
   */
  lemma StatementsSortedStably(lines: seq<string>, kw: string)
    ensures multiset(Statements(lines)) == multiset(NonBlank(lines))
    ensures SortedBy(Statements(lines), KeywordLe)
    ensures WithKeyword(Statements(lines), kw) == WithKeyword(NonBlank(lines), kw)
  {
    var s := NonBlank(lines);
    var k: Statement := [kw];
    KeywordLePreorder(s);
    SortBySorted(s, KeywordLe);
    KeywordLePreorder([k] + s);
    SortByStable(s, k, KeywordLe);
    EquivalentsAreKeyword(Statements(lines), k);
    EquivalentsAreKeyword(s, k);
  }

  // ---------------------------------------------------------------------
  // Ports: `port = list(filter(lambda x: x[0] == 'PORT', result))` and the
  // two comprehensions over it.

  predicate IsRail(name: string)
  {
    name == "VDD" || name == "GND"
  }

  /** `x` declares port `name` in direction `dir` (`PORT <dir> <name> ...`). */
  predicate Declares(x: Statement, dir: string, name: string)
  {
    |x| >= 3 && x[0] == "PORT" && x[1] == dir && x[2] == name
  }

  /** A PORT statement on which the comprehension for `dir` raises IndexError. */
  predicate BreaksPortScan(x: Statement, dir: string)
  {
    Keyword(x) == "PORT" && (|x| < 2 || (x[1] == dir && |x| < 3))
  }

  /** `[x[2] for x in port if x[1] == 'IN' and x[2] not in ('VDD', 'GND')]`. */
  function PortInputs(stmts: seq<Statement>): (r: Result<seq<string>, SimError>)
    ensures r.Err? ==> r.error.Malformed? && r.error.stmt in stmts && BreaksPortScan(r.error.stmt, "IN")
  {
    if stmts == [] then Ok([])
    else
      var x := stmts[0];
      var rest := PortInputs(stmts[1..]);
      if Keyword(x) != "PORT" then rest
      else if |x| < 2 then Err(Malformed(x))
      else if x[1] != "IN" then rest
      else if |x| < 3 then Err(Malformed(x))
      else if rest.Err? then rest
      else Ok((if IsRail(x[2]) then [] else [x[2]]) + rest.value)
  }

  /** `[x[2] for x in port if x[1] == 'OUT']`. */
  function PortOutputs(stmts: seq<Statement>): (r: Result<seq<string>, SimError>)
    ensures r.Err? ==> r.error.Malformed? && r.error.stmt in stmts && BreaksPortScan(r.error.stmt, "OUT")
  {
    if stmts == [] then Ok([])
    else
      var x := stmts[0];
      var rest := PortOutputs(stmts[1..]);
      if Keyword(x) != "PORT" then rest
      else if |x| < 2 then Err(Malformed(x))
      else if x[1] != "OUT" then rest
      else if |x| < 3 then Err(Malformed(x))
      else if rest.Err? then rest
      else Ok([x[2]] + rest.value)
  }

  /**
   * The input comprehension fails exactly on a PORT statement too short for
   * it; otherwise it lists every declared input that is not a rail, and nothing else.
   */
  lemma {:induction false} PortInputsMeaning(stmts: seq<Statement>)
    ensures PortInputs(stmts).Err? <==> exists k :: 0 <= k < |stmts| && BreaksPortScan(stmts[k], "IN")
    ensures PortInputs(stmts).Ok? ==> forall n :: n in PortInputs(stmts).value <==>
      !IsRail(n) && exists k :: 0 <= k < |stmts| && Declares(stmts[k], "IN", n)
  {
    if stmts != [] {
      PortInputsMeaning(stmts[1..]);
      assert forall k :: 1 <= k < |stmts| ==> stmts[k] == stmts[1..][k - 1];
    }
  }

  /** The same for the output comprehension, which keeps the rails. */
  lemma {:induction false} PortOutputsMeaning(stmts: seq<Statement>)
    ensures PortOutputs(stmts).Err? <==> exists k :: 0 <= k < |stmts| && BreaksPortScan(stmts[k], "OUT")
    ensures PortOutputs(stmts).Ok? ==> forall n :: n in PortOutputs(stmts).value <==>
      exists k :: 0 <= k < |stmts| && Declares(stmts[k], "OUT", n)
  {
    if stmts != [] {
      PortOutputsMeaning(stmts[1..]);
      assert forall k :: 1 <= k < |stmts| ==> stmts[k] == stmts[1..][k - 1];
    }
  }

  /** Inputs first, as `simulate_circuit` and `grabinputs` evaluate them, then outputs. */
  function PortsOf(stmts: seq<Statement>): (r: Result<Ports, SimError>)
    ensures r.Err? ==> r.error.Malformed?
  {
    match PortInputs(stmts)
    case Err(e) => Err(e)
    case Ok(ins) =>
      match PortOutputs(stmts)
      case Err(e) => Err(e)
      case Ok(outs) => Ok(Ports(ins, outs))
  }

  /** The ports depend only on the PORT statements, taken in order. */
  lemma {:induction false} InputsOnlySeePortStatements(stmts: seq<Statement>)
    ensures PortInputs(stmts) == PortInputs(WithKeyword(stmts, "PORT"))
  {
    if stmts != [] {
      InputsOnlySeePortStatements(stmts[1..]);
      var x := stmts[0];
      var w := WithKeyword(stmts, "PORT");
      if Keyword(x) == "PORT" {
        assert w == [x] + WithKeyword(stmts[1..], "PORT");
        assert w[0] == x && w[1..] == WithKeyword(stmts[1..], "PORT");
      } else {
        assert w == WithKeyword(stmts[1..], "PORT");
      }
    }
  }

  lemma {:induction false} OutputsOnlySeePortStatements(stmts: seq<Statement>)
    ensures PortOutputs(stmts) == PortOutputs(WithKeyword(stmts, "PORT"))
  {
    if stmts != [] {
      OutputsOnlySeePortStatements(stmts[1..]);
      var x := stmts[0];
      var w := WithKeyword(stmts, "PORT");
      if Keyword(x) == "PORT" {
        assert w == [x] + WithKeyword(stmts[1..], "PORT");
        assert w[0] == x && w[1..] == WithKeyword(stmts[1..], "PORT");
      } else {
        assert w == WithKeyword(stmts[1..], "PORT");
      }
    }
  }

  /**
   * Sorting by keyword does not reorder the ports: inputs and outputs come out
   * in the order of their PORT lines in the file.
   */
  lemma PortsInFileOrder(lines: seq<string>)
    ensures PortInputs(Statements(lines)) == PortInputs(NonBlank(lines))
    ensures PortOutputs(Statements(lines)) == PortOutputs(NonBlank(lines))
  {
    StatementsSortedStably(lines, "PORT");
    InputsOnlySeePortStatements(Statements(lines));
    InputsOnlySeePortStatements(NonBlank(lines));
    OutputsOnlySeePortStatements(Statements(lines));
    OutputsOnlySeePortStatements(NonBlank(lines));
  }

  predicate IsDevice(x: Statement)
  {
    Keyword(x) == "NMOS" || Keyword(x) == "PMOS" || Keyword(x) == "INST"
  }

  /** `[x for x in result if x[0] == "NMOS" or x[0] == "PMOS" or x[0] == "INST"]`. */
  function Devices(stmts: seq<Statement>): seq<Statement>
  {
    if stmts == [] then []
    else (if IsDevice(stmts[0]) then [stmts[0]] else []) + Devices(stmts[1..])
  }

  /** The queue holds the device statements of the netlist and nothing else. */
  lemma {:induction false} DevicesMeaning(stmts: seq<Statement>)
    ensures forall k :: 0 <= k < |Devices(stmts)| ==> IsDevice(Devices(stmts)[k]) && Devices(stmts)[k] in stmts
    ensures forall x :: x in stmts && IsDevice(x) ==> x in Devices(stmts)
  {
    if stmts != [] {
      DevicesMeaning(stmts[1..]);
      assert forall x :: x in stmts ==> x == stmts[0] || x in stmts[1..];
    }
  }
}
