# simgds in Dafny

A model of the two computational cores of simgds, a toolkit that turns a GDSII
layout of CMOS cells into a transistor netlist and simulates such netlists at
switch level.

**The simulator** (`simulate.py`) reads a `.cmos` netlist, one statement per line:
`PORT IN|OUT name`, `NMOS|PMOS id gate source drain`, and `INST circuit actuals...`.
It then:
- drops blank lines;
- sorts the statements stably by keyword;
- resolves the device statements in dependency order with a rotating queue;
- starts every wire at 0, sets VDD to 1 and sets the caller's inputs;
- fires the statements in resolved order. An NMOS copies source to drain when its gate is 1, a PMOS when its gate is 0. An INST simulates its sub-circuit recursively.

The truth-table branch simulates every input combination, in counting order, for circuits with at most six inputs.

**The extractor** (`extract.py`) takes the layout as given shapes. Each shape has a layer/datatype, a bounding box with exact real coordinates, and its vertices. The boolean AND of the geometry library is a parameter `g` that yields pieces or raises. The extractor:
- finds transistors where poly crosses diffusion;
- classifies each transistor as PMOS when its channel lies inside an n-well;
- splits its contacts into source and drain by their x midpoints;
- numbers the PMOS and NMOS transistors independently;
- pairs transistors whose source or drain contacts touch;
- merges overlapping metal shapes into nets with a union-find;
- records which transistor terminals and ports touch each net;
- writes two netlist formats.

Modules:
- `Wrappers`, `Text`, `Sorting` and `Dicts` hold the Python machinery the cores rely on:
  - `Text`: `str.split()`, `" ".join`, code-point string order and decimal labels;
  - `Sorting`: stable `sorted`;
  - `Dicts`: insertion-ordered dictionaries.
- `Netlist`, `Resolve`, `Simulator`, `SimulatorFacts` and `TruthTable` model `simulate.py`.
- `Layout`, `Transistors`, `Pairs`, `MetalNets`, `Connections` and `Synthesis` model `extract.py`.

Loops of the source are methods with loop invariants, each proved equal to a recursive specification function; the properties of the source are lemmas about those functions.

## Model

| member | source | states |
|---|---|---|
| Netlist.NonBlank | simulate.py:31-35 | every kept statement is non-empty and consists of whitespace-free tokens |
| Netlist.ReadStatements | simulate.py:31-36 | the reading loop yields exactly the tokenised non-blank lines, sorted by keyword |
| Netlist.Statements | simulate.py:31-36 | the statements of a file: tokenised non-blank lines sorted stably by keyword (properties in `StatementsSortedStably`) |
| Netlist.StatementsSortedStably | simulate.py:31-36 | the statements are a permutation of the non-blank lines, sorted by keyword, and statements sharing a keyword keep file order |
| Netlist.WithKeyword | simulate.py:39 | filtering by keyword keeps only statements of the input with that keyword |
| Netlist.EquivalentsAreKeyword | simulate.py:36 | the statements the sort treats as equal to one are exactly those with its keyword |
| Netlist.PortInputs | simulate.py:39-40 | a failure names a PORT statement of the netlist too short for the comprehension (IndexError) |
| Netlist.PortOutputs | simulate.py:39-41 | same for the output comprehension |
| Netlist.PortInputsMeaning | simulate.py:12-13 | the comprehension fails iff some PORT statement is too short; otherwise a name is an input iff some statement declares it `PORT IN` and it is not VDD or GND |
| Netlist.PortOutputsMeaning | simulate.py:24-25 | fails iff some PORT statement is too short; otherwise a name is an output iff some statement declares it `PORT OUT` |
| Netlist.PortsOf | simulate.py:39-41 | port lists fail only with an IndexError |
| Netlist.InputsOnlySeePortStatements | simulate.py:39-40 | the input list depends only on the PORT statements, as the filter promises |
| Netlist.OutputsOnlySeePortStatements | simulate.py:39-41 | the output list depends only on the PORT statements |
| Netlist.PortsInFileOrder | simulate.py:11-14 | after the stable sort, inputs and outputs come out in file order |
| Netlist.DevicesMeaning | simulate.py:45 | the queue holds exactly the NMOS/PMOS/INST statements of the netlist |
| Netlist.Devices | simulate.py:45 | the device queue (its meaning is `DevicesMeaning`) |
| Resolve.AllKnown | simulate.py:60 | `all(...)` is true iff every checked actual is known; it raises IndexError iff it runs off the statement before meeting an unknown wire |
| Resolve.Span | simulate.py:61-62 | the slice of actual wires holds the statement's tokens at those positions, clipped at its end |
| Resolve.CheckTransistor | simulate.py:50-56 | an NMOS/PMOS is ready iff gate `x[2]` and source `x[3]` are known wires, and then it produces its drain `x[4]`; IndexError exactly when a token it reads is missing |
| Resolve.CheckInst | simulate.py:57-60 | an INST needs its circuit name and its sub-circuit ports; a lookup failure is passed on, otherwise its actuals decide (`CheckActuals`) |
| Resolve.CheckHead | simulate.py:50-60 | `queue[0][0] != "INST"` picks the transistor test or the INST test; readiness only grows with the known wires (`CheckHeadMonotone`) |
| Resolve.ResolveFrom | simulate.py:49-66 | the rotating-queue loop: pop a ready head into the order, else rotate it; a full pass without progress is reported as stuck (properties in `ResolveFromPermutes`, `ResolveFromReplays`, `ResolveFromStuck`, `ResolveFromErrors`) |
| Resolve.CheckActuals | simulate.py:57-66 | an INST is ready iff its first `n` actuals are known (`n` = sub-circuit input count), and then it produces its `m` output actuals |
| Resolve.CheckHeadMonotone | simulate.py:49-66 | once a statement is ready, more known wires never change that verdict or what it produces |
| Resolve.ResolveQueue | simulate.py:45-66 | the pop/append/rotate loop computes the resolution function |
| Resolve.AddWires | simulate.py:52-62 | the wire set after appending is the old set plus the produced wires |
| Resolve.ResolveFromPermutes | simulate.py:45-66 | throughout the loop, resolved ++ queue is a permutation of the device statements |
| Resolve.ResolveFromReplays | simulate.py:45-66 | the resolved list replays from the initial wires to the final wire set, which only grows |
| Resolve.ResolveFromStuck | simulate.py:49-66 | when a full pass makes no progress, every pending statement is blocked on the final wire set |
| Resolve.ResolveFromErrors | simulate.py:49-66 | the loop fails only with IndexError or a missing sub-circuit netlist |
| Resolve.ReplaySettled | simulate.py:49-66 | every statement of a replayed order reads only wires known at its turn |
| Resolve.ResolvedSettled | simulate.py:45-66 | a completed resolution is a permutation of the devices in which each statement's inputs are known before it fires |
| Resolve.StuckForever | simulate.py:49-66 | when the model reports Unresolved, every pending statement is blocked, so the source loop would rotate forever |
| Simulator.SubPorts | simulate.py:58-59 | reading a sub-circuit's ports fails only when its netlist is missing or malformed |
| Simulator.LookupIn | simulate.py:58-59 | the port lookup the resolution loop uses: the ports of the named sub-circuit in the library |
| Simulator.Lookup | simulate.py:103 | output lookup succeeds iff every name has a value, gives the values in order, and otherwise reports a missing name (KeyError) |
| Simulator.Assign | simulate.py:92-100 | assigning a sequence of keys adds exactly those keys |
| Simulator.AssignLastWins | simulate.py:99-100 | an assigned key holds the value of its last assignment; other keys are unchanged |
| Simulator.Initial | simulate.py:69-76 | each wire starts at 0; VDD=1 and GND=0; a declared input present in the caller's map takes the caller's value |
| Simulator.InitValues | simulate.py:69-76 | the initialisation loop computes that map |
| Simulator.Fire | simulate.py:79-83 | NMOS with gate 1 or PMOS with gate 0 sets drain := source; otherwise nothing changes, and no wire but the drain ever changes |
| Simulator.Conducts | simulate.py:80-83 | an NMOS conducts when its gate is 1, a PMOS when its gate is 0 (used by the `Fire` contract) |
| Simulator.Simulate | simulate.py:28-103 | a result has one value per declared output port |
| Simulator.Evaluate | simulate.py:79-100 | evaluation never removes a wire |
| Simulator.BindInputs | simulate.py:87-93 | the sub-circuit input map has exactly the sub-circuit's input names as keys |
| Simulator.BindInputsValues | simulate.py:87-93 | binding succeeds iff every input actual `h[3+i]` exists and has a value (IndexError/KeyError otherwise); pin `i` then takes the value of `h[3+i]`, a later pin of the same name winning |
| Simulator.FireInst | simulate.py:84-100 | an INST keeps all wires; at depth 0 it fails |
| Simulator.FireInstSucceeds | simulate.py:84-100 | a successful INST names a library circuit with readable ports, binds its inputs, and its sub-circuit simulation one level down succeeds |
| Simulator.FireInstDataFlow | simulate.py:84-100 | a successful INST feeds pin `i` the value of `h[3+i]`, stores sub-circuit output `j` on `h[3+n+j]` (a later repeat of a wire wins), and leaves every other wire unchanged |
| Simulator.Descend | simulate.py:96-100 | the recursive call keeps all wires; at depth 0 it reports depth exhaustion |
| Simulator.Deliver | simulate.py:98-100 | storing sub-circuit outputs keeps all wires |
| Simulator.DeliverStores | simulate.py:98-100 | storing succeeds iff the sub-circuit succeeded with one value per destination; `dest[j]` then holds output `j` unless a later destination repeats it, and every other wire keeps its value |
| Simulator.ResultsAt | simulate.py:100 | the destinations of the outputs are the actuals `h[3+n+j]`, in declared output order |
| Simulator.Step | simulate.py:79-100 | the body of the evaluation loop computes one firing |
| Simulator.StepInst | simulate.py:84-100 | the INST branch computes FireInst |
| Simulator.Instantiate | simulate.py:95-100 | the recursive call and output store compute Descend |
| Simulator.StoreOutputs | simulate.py:98-100 | the output-storing loop computes Deliver |
| Simulator.LookupFirstMissing | simulate.py:93-103 | the KeyError names the first missing wire |
| Simulator.Bind | simulate.py:87-93 | the input-binding loop computes BindInputs |
| Simulator.Store | simulate.py:99-100 | the store loop assigns the outputs in order |
| Simulator.ReadOutputs | simulate.py:103 | the output comprehension computes Lookup |
| Simulator.SimulateCircuit | simulate.py:28-103 | reading and simulating a netlist file computes Simulate on its statements |
| Simulator.Run | simulate.py:28-103 | the whole procedure computes Simulate |
| Simulator.EvaluateOrder | simulate.py:79-100 | the evaluation loop computes Evaluate |
| SimulatorFacts.SimulateNoMissingWire | simulate.py:28-103 | simulation never raises KeyError: resolution guarantees every wire read has a value |
| SimulatorFacts.EvaluateNoMissingWire | simulate.py:79-100 | evaluating a settled order never meets a missing wire, and keeps the same wire set |
| SimulatorFacts.FireNoMissingWire | simulate.py:79-83 | a ready statement never meets a missing wire |
| SimulatorFacts.FireInstNoMissingWire | simulate.py:84-100 | a ready INST never meets a missing wire |
| SimulatorFacts.DescendNoMissingWire | simulate.py:96-100 | storing the sub-circuit's outputs never meets a missing wire |
| SimulatorFacts.AssignBinary | simulate.py:99-100 | assigning 0/1 values keeps every wire 0/1 |
| SimulatorFacts.SimulateBinary | simulate.py:103 | with 0/1 inputs, every output is 0 or 1 |
| SimulatorFacts.EvaluateBinary | simulate.py:79-100 | evaluation keeps every wire 0 or 1 |
| SimulatorFacts.FireBinary | simulate.py:79-83 | firing a statement keeps every wire 0 or 1 |
| SimulatorFacts.FireInstBinary | simulate.py:84-100 | an INST keeps every wire 0 or 1 |
| SimulatorFacts.DescendBinary | simulate.py:96-100 | a sub-circuit call keeps every wire 0 or 1 |
| TruthTable.Pow2 | simulate.py:119 | the number of rows is at least 1 |
| TruthTable.Digits | simulate.py:119 | the tuple for row `i` has `n` entries |
| TruthTable.DigitsAreBits | simulate.py:119 | each entry of an input tuple is 0 or 1 |
| TruthTable.Product | simulate.py:119 | `product([0,1], repeat=n)` has `2^n` tuples |
| TruthTable.ProductIsCounting | simulate.py:119 | tuple `i` of the product is `i` written in binary, most significant first |
| TruthTable.DigitsValue | simulate.py:119 | reading tuple `i` as a binary number gives back `i` |
| TruthTable.ValueBound | simulate.py:119 | a 0/1 tuple of length `n` reads as a number below `2^n` |
| TruthTable.ValueDigits | simulate.py:119 | every 0/1 tuple is the tuple of its own value, so each appears exactly once |
| TruthTable.RowsUpTo | simulate.py:119-122 | the first `k` rows are `k` lines |
| TruthTable.InputMap | simulate.py:120 | `dict(zip(portinputs, values))`, the last binding of a repeated name winning (`AssignLastWins`) |
| TruthTable.TableRow | simulate.py:120-122 | one table line: the input bits followed by the simulated outputs, or the simulation failure (shape in `RowsUpToShape`) |
| TruthTable.Table | simulate.py:114-122 | a table exists only for a netlist with readable ports and at most six inputs |
| TruthTable.TableOk | simulate.py:114-122 | a table is produced exactly when the ports read cleanly, there are at most six inputs, and `simulate_circuit` succeeds on every input tuple |
| TruthTable.RowsUpToShape | simulate.py:119-122 | row `i` is input tuple `i` followed by the simulated outputs for those inputs |
| TruthTable.FirstFailureStands | simulate.py:119-122 | a failing simulation ends the table with that failure |
| TruthTable.RowsUpToOk | simulate.py:119-122 | the first k lines are produced exactly when the circuit simulates on each of the first k tuples |
| TruthTable.TableShape | simulate.py:114-122 | a produced table has 2^n rows; row i is the i-th tuple of `product([0, 1], repeat=n)` followed by exactly the outputs `simulate_circuit` gives on that tuple, all 0/1 |
| TruthTable.TooWideRefused | simulate.py:116-117 | more than six inputs is refused with the input count, whatever the library and the nesting depth: nothing is simulated |
| TruthTable.GenerateTable | simulate.py:114-122 | the table loop computes Table |
| TruthTable.EnumerateRows | simulate.py:119-122 | the row loop computes every row in order |
| TruthTable.SimulateRow | simulate.py:120-122 | one iteration computes its row |
| Text.DropSpace | simulate.py:8 | dropping leading whitespace leaves a suffix starting with a non-space |
| Text.WordLength | simulate.py:10 | a word runs up to the first whitespace |
| Text.Tokenize | simulate.py:10 | `split()` yields whitespace-free, non-empty tokens |
| Text.TokenizeEmptyIffBlank | simulate.py:8-9 | a line yields no tokens iff it is blank |
| Text.TokenizeKeepsText | simulate.py:10 | the tokens concatenate to the line's non-whitespace characters |
| Text.TokenizeJoin | extract.py:227 | joining tokens with single spaces and splitting gives the tokens back |
| Text.StrLeTotal | simulate.py:36 | Python string order is total |
| Text.StrLe | simulate.py:36 | Python code-point string order; total, transitive and antisymmetric (`StrLeTotal`, `StrLeTrans`, `StrLeAntisym`) |
| Text.StrLeTrans | simulate.py:36 | Python string order is transitive |
| Text.StrLeAntisym | extract.py:160 | Python string order is antisymmetric |
| Text.Dec | extract.py:121 | the decimal numeral of `n` is non-empty digits; two or more digits iff `n >= 10` |
| Text.Label | extract.py:121-125 | an f-string prefix followed by a decimal number; injective and a single token (`LabelInjective`, `LabelIsToken`) |
| Text.Join | extract.py:227 | `" ".join(words)`; splitting the result gives the words back when none is empty or has a space (`TokenizeJoin`) |
| Text.DecInjective | extract.py:121-125 | different numbers have different numerals |
| Text.LabelInjective | extract.py:121-125 | `f"{prefix}{n}"` labels are distinct for distinct `n` |
| Text.LabelIsToken | extract.py:121-125 | a label of a whitespace-free prefix is whitespace-free |
| Sorting.SortBy | extract.py:221 | `sorted` returns a permutation of its input |
| Sorting.SortBySorted | extract.py:221 | under a total preorder, the result is sorted |
| Sorting.SortByStable | simulate.py:11 | items that compare equal keep their relative order |
| Dicts.Get | extract.py:268-270 | `get` finds a value iff the key has an entry, and returns that entry's value |
| Dicts.Put | extract.py:306 | assignment keeps existing keys in place and appends a new key at the end |
| Dicts.GetPut | extract.py:306 | after `d[k] = v`, `k` reads `v` and other keys read as before |
| Dicts.FromEntries | extract.py:288 | a dict built from assignments has one entry per key, each from an assignment |
| Dicts.GetFromEntries | extract.py:288 | each key reads its last assigned value |
| Dicts.LastValueConcat | extract.py:288 | in `{**a, **b}` the later dict wins |
| Dicts.FromDistinctEntries | extract.py:302-309 | assignments to distinct keys give those entries in order |
| Layout.OnLayer | extract.py:332-335 | the filter keeps exactly the shapes on the given layer/datatype |
| Layout.UsableOn | extract.py:30-33 | the filter keeps exactly the valid polygons on the given layer/datatype |
| Transistors.CandidatesWithMeaning | extract.py:41-47 | for one poly, a candidate is a diffusion shape whose intersection is non-empty, valid and raises nothing |
| Transistors.CandidatesMeaning | extract.py:39-47 | the candidates are exactly such (poly, diffusion, channel) triples |
| Transistors.Candidates | extract.py:39-47 | the (poly, diffusion, channel) triples in loop order (meaning in `CandidatesMeaning`) |
| Transistors.CollectCandidates | extract.py:39-47 | the nested loop computes the candidate list in poly-major order |
| Transistors.InWell | extract.py:58-69 | in-well iff the channel box lies inside some n-well box on all four edges, inclusive |
| Transistors.WellTest | extract.py:58-69 | the loop with `break` computes that test |
| Transistors.Touching | extract.py:73-79 | the kept contacts are exactly those overlapping the diffusion, each kept at most as often as it occurs |
| Transistors.ContactsInDiff | extract.py:73-79 | the loop computes that list |
| Transistors.Filter | extract.py:94-96 | a comprehension keeps exactly the matching contacts |
| Transistors.ContactSides | extract.py:91-96 | left iff midpoint <= left+0.4·width, right iff >= left+0.6·width, middle iff strictly between |
| Transistors.SidesPartition | extract.py:91-96 | when width > 0, the three sets partition the contacts |
| Transistors.FallbackSplit | extract.py:103-106 | the fallback's source ++ drain is the sorted contacts, the drain gets the extra one, and each source lies left of each drain |
| Transistors.CutOrdered | extract.py:104-106 | every contact before the cut has a midpoint no greater than every contact after it |
| Transistors.PreferredSplits | extract.py:98-102 | with exactly two contacts left of the channel and two right of it, source and drain are those two sides, each in midpoint order; otherwise a three-contact transistor with one middle contact takes both sides as source and the middle one as drain |
| Transistors.SourceDrain | extract.py:98-106 | the source/drain rule; its meaning is stated by `PreferredSplits`, `FallbackSplit` and `SourceDrainDisjoint` |
| Transistors.SourceDrainDisjoint | extract.py:98-106 | when width > 0, source and drain never share a contact; outside the 2/2 case they cover all contacts |
| Transistors.AnalyseCandidate | extract.py:52-118 | analysing one candidate computes its device record |
| Transistors.Analyse | extract.py:52-118 | the device record of one candidate: well test, contacts in the diffusion, source/drain split |
| Transistors.CandidatesChannelled | extract.py:44-45 | every candidate has a non-empty channel |
| Transistors.AnalyseAll | extract.py:52-118 | one device per candidate |
| Transistors.NumberedMeaning | extract.py:120-127 | the k-th transistor of a polarity has id `PREFIX_k` (from 1), that polarity, and a device from the input |
| Transistors.NumberedInOrder | extract.py:120-127 | the numbered transistors of one polarity carry exactly the devices of that polarity, in discovery order |
| Transistors.Numbered | extract.py:120-127 | the numbering loop for one polarity (meaning in `NumberedMeaning` and `NumberedInOrder`) |
| Transistors.NumberedSplit | extract.py:120-127 | the NMOS and PMOS lists together hold every device exactly once |
| Transistors.IdsUnique | extract.py:120-127 | no two transistors share an id |
| Transistors.FindTransistors | extract.py:12-129 | the cell loop returns the numbered NMOS and PMOS lists |
| Transistors.ExtractCell | extract.py:26-127 | one cell extends both lists and keeps each counter one past its list's length |
| Transistors.NumberCandidates | extract.py:52-127 | the candidate loop extends both lists |
| Transistors.File | extract.py:120-127 | filing one device appends it to its polarity's list with the next id |
| Pairs.TouchesAny | extract.py:135-138 | the inner loop finds a touching box iff there is one |
| Pairs.Touch | extract.py:137 | two bounding boxes touch unless one lies wholly left, right, below or above the other, closed edges counting as touching |
| Pairs.ContactsOverlap | extract.py:132-139 | true iff some box of the first list touches (edges inclusive) some box of the second |
| Pairs.ContactsOverlapSymmetric | extract.py:132-139 | the test is symmetric |
| Pairs.Linked | extract.py:156-159 | two transistors are linked when their source contacts or their drain contacts overlap |
| Pairs.Spread | extract.py:165-168 | the number of distinct contact midpoints of the two transistors |
| Pairs.Step | extract.py:159-183 | one visit of the double loop: a linked, unseen pair is marked used and filed as series (2 midpoints) or parallel (3) with the next id (properties in `FoldSound`, `FoldComplete`, `FoldOncePerKey`, `FoldSequentialIds`) |
| Pairs.KeyOfSame | extract.py:160 | equal sorted id pairs come from the same two ids |
| Pairs.FoldSequentialIds | extract.py:170-183 | series and parallel ids stay sequential during the loop |
| Pairs.FoldSound | extract.py:151-183 | every recorded pair is `j > i`, linked, and series iff 2 distinct midpoints, parallel iff 3 |
| Pairs.FoldOncePerKey | extract.py:160-163 | no sorted id pair is recorded twice |
| Pairs.FoldUsed | extract.py:160-163 | `used_pairs` holds exactly the keys of the linked pairs examined so far |
| Pairs.FreshKey | extract.py:160-163 | with distinct ids, a pair's key is new when it is examined |
| Pairs.FoldComplete | extract.py:151-183 | every linked pair with 2 or 3 midpoints examined so far is recorded |
| Pairs.PairIdsSequential | extract.py:170-183 | the ids are `{prefix}SERIES_PAIR_1..` and `{prefix}PARALLEL_PAIR_1..` in order |
| Pairs.PairsSound | extract.py:151-185 | every pair comes from `j > i` and was classified by its midpoint count |
| Pairs.PairsOncePerKey | extract.py:160-163 | each sorted id pair appears at most once across both lists |
| Pairs.PairsOfComplete | extract.py:151-183 | with distinct ids, a linked pair is recorded as series with 2 midpoints and as parallel with 3 |
| Pairs.Examine | extract.py:156-183 | one iteration computes the loop step and keeps the counters one past the list lengths |
| Pairs.FindPairsForType | extract.py:144-185 | the double loop computes the pair lists |
| Pairs.Polarity | extract.py:141-142 | the polarity filter keeps only transistors of that polarity |
| Pairs.FindTransistorPairs | extract.py:131-190 | pairs are found per polarity and concatenated NMOS first |
| Pairs.PairsKeepPolarity | extract.py:141-142 | both transistors of every pair have the polarity of their list |
| Pairs.PolarityDistinct | extract.py:141-142 | the polarity split keeps ids distinct |
| Pairs.ExtractedSidesDistinct | extract.py:120-142 | both lists the pair search receives from the extractor have distinct ids, so `PairsOfComplete` applies to them |
| MetalNets.ConnectedSym | extract.py:350-358 | connectivity through overlaps is symmetric |
| MetalNets.ConnectedTrans | extract.py:350-358 | connectivity through overlaps is transitive |
| MetalNets.AdjacentConnected | extract.py:354-356 | overlapping shapes are connected |
| MetalNets.Halve | extract.py:340-341 | one path-halving step keeps the forest and every root |
| MetalNets.Link | extract.py:348 | linking two roots keeps a forest and moves exactly the second tree under the first |
| MetalNets.InitialForest | extract.py:337 | each shape starts as its own root |
| MetalNets.RootOf | extract.py:339-342 | the root reached by following parent links; every root is its own parent |
| MetalNets.Find | extract.py:339-342 | `find` returns the root and leaves every root unchanged |
| MetalNets.Union | extract.py:344-348 | after `union(a, b)` the tree of `b` joins the tree of `a`; other trees are untouched |
| MetalNets.UnionReaches | extract.py:354-356 | after a union, every shape is still connected through overlaps to its root |
| MetalNets.UnionJoins | extract.py:354-356 | after a union, the overlapping pair shares a root |
| MetalNets.JoinPair | extract.py:352-358 | one iteration keeps the loop invariant |
| MetalNets.JoinRow | extract.py:351-358 | the inner loop keeps the loop invariant |
| MetalNets.JoinOverlapping | extract.py:350-358 | afterwards every shape is connected through overlaps to its root, and every overlapping pair shares a root |
| MetalNets.PathSameRoot | extract.py:350-358 | the ends of an overlap path share a root |
| MetalNets.RootsAreComponents | extract.py:350-358 | two shapes share a root iff they are connected through overlaps |
| MetalNets.GroupBy | extract.py:360-363 | each group is non-empty and holds only positions with its root |
| MetalNets.GroupByComplete | extract.py:360-363 | every shape is in its root's group |
| MetalNets.GroupByDistinct | extract.py:360-363 | each root has one group |
| MetalNets.GroupByIncreasing | extract.py:361-363 | shapes within a group keep ingestion order |
| MetalNets.GroupByFirstOrder | extract.py:360-366 | groups are ordered by their first shape |
| MetalNets.NetsOf | extract.py:365-370 | net `i` is named `NET{i+1}` and holds its group |
| MetalNets.MakeNet | extract.py:367-369 | net `i` is named `NET{i+1}` and holds, in order, the polygons its handles index |
| MetalNets.NetsFrom | extract.py:360-370 | one net per distinct label |
| MetalNets.EveryShapeInOneNet | extract.py:360-372 | every metal shape is in exactly one net |
| MetalNets.NetNames | extract.py:366-368 | nets are named `NET1..NETk` and the names are distinct |
| MetalNets.NetsHoldTheirShapes | extract.py:360-370 | each net is non-empty, holds the shapes of one root, in ingestion order |
| MetalNets.NetsNumberedByFirstShape | extract.py:360-368 | nets are numbered in the order of their first ingested shape |
| MetalNets.SameNetIffConnected | extract.py:350-372 | two shapes share a net iff they are connected through overlaps |
| MetalNets.FileOne | extract.py:362-363 | filing one shape extends the grouping by that shape |
| MetalNets.FileByRoot | extract.py:360-363 | the grouping loop groups the shapes by root |
| MetalNets.NameGroups | extract.py:365-370 | the naming loop computes the nets |
| MetalNets.FindConnectedMetalNets | extract.py:329-372 | the result is the nets of some labelling of the met1 shapes whose classes are exactly the connected components |
| Connections.BelongsTo | extract.py:296-300 | true iff some net shape overlaps the polygon and every test before it succeeded with an empty result (a raise makes the whole test false) |
| Connections.BelongsWithoutErrors | extract.py:296-300 | when nothing raises, true iff the polygon overlaps some net shape |
| Connections.AnyBelongs | extract.py:314-315 | some element of the list belongs to the net |
| Connections.Add | extract.py:316-319 | recording a part adds exactly that (transistor, part) |
| Connections.Mark | extract.py:313-319 | one transistor's parts in order, each added when one of its elements belongs to the net; no entry is ever empty (meaning in `MarkMeaning`) |
| Connections.TerminalsOf | extract.py:311-319 | every recorded transistor has at least one part |
| Connections.MarkMeaning | extract.py:312-319 | a part is recorded iff one of its elements belongs to the net |
| Connections.TerminalsMeaning | extract.py:311-319 | (id, part) is recorded on a net iff a transistor with that id has an element of that part touching the net |
| Connections.MarkPart | extract.py:313-319 | the element loop computes one part's record |
| Connections.MarkTransistor | extract.py:312-319 | the part loop records gate, source and drain |
| Connections.TerminalAttachments | extract.py:311-319 | the transistor loop computes the terminal record |
| Connections.Entries | extract.py:288 | the entries of a port section are its names and layers, in order |
| Connections.TechPorts | extract.py:288 | `{**tech["in"], **tech["out"]}`: each name once, an `out` entry overriding an `in` one (`TechPortsLookup`) |
| Connections.TechPortsLookup | extract.py:288 | the merged port table has distinct names, and an output port overrides an input of the same name |
| Connections.PortShapes | extract.py:290-294 | one shape list per port |
| Connections.PortPolygons | extract.py:290-294 | the nested loop collects each port's shapes on its layer, in order |
| Connections.FileShape | extract.py:292-294 | one polygon is appended to the list of every port on its layer and to no other |
| Connections.PortsMeaning | extract.py:321-325 | a port is attached iff one of its shapes belongs to the net |
| Connections.PortsOf | extract.py:321-325 | the ports attached to a net (meaning in `PortsMeaning`) |
| Connections.TouchesNet | extract.py:322-325 | the loop with `break` stops at the first shape that belongs |
| Connections.PortAttachments | extract.py:321-325 | the port loop computes the attached set |
| Connections.ConnectionEntries | extract.py:302-325 | one connection record per net, in net order |
| Connections.FindNetObjectConnections | extract.py:285-327 | the result is the dict built by assigning each net's record |
| Connections.ConnectionsPerNet | extract.py:302-327 | with distinct net ids, the dict lists every net once, in order, with its record |
| Synthesis.FirstPort | extract.py:194-196 | the first declared port on the shape's layer, or none iff there is none |
| Synthesis.ConnectedPort | extract.py:192-197 | the first input port on the shape's layer, else the first output port, else `N/A` (`ConnectedPortMeaning`) |
| Synthesis.ConnectedPortGroup | extract.py:199-204 | the first polygon with a port gives the answer, else `N/A` (`ConnectedPortGroupMeaning`) |
| Synthesis.FirstPortConcat | extract.py:193-196 | scanning `in` then `out` takes the first match of `in` if there is one |
| Synthesis.ConnectedPortMeaning | extract.py:192-197 | an input port on the layer wins over an output port; with no match the result is `N/A` |
| Synthesis.ConnectedPortGroupMeaning | extract.py:199-204 | `N/A` iff no polygon has a port; otherwise the port of the first polygon that has one |
| Synthesis.PortLines | extract.py:250-254 | one `PORT` line per declared port |
| Synthesis.BuildPortLines | extract.py:250-254 | the loop builds the port lines, inputs first |
| Synthesis.SortedPortLines | extract.py:280 | the sorted port lines are sorted by full text and are a permutation of the port lines |
| Synthesis.PortLineReadsBack | extract.py:254 | a port line splits back into `PORT`, direction, name |
| Synthesis.DeviceLines | extract.py:223-233 | one line per transistor |
| Synthesis.TranspileLine | extract.py:224-227 | `"{kind} {id} {gate} {source} {drain}"`; it splits back into those five fields (`TranspileLineReadsBack`) |
| Synthesis.TranspileLines | extract.py:221-236 | the sorted port lines, then the PMOS lines, then the NMOS lines |
| Synthesis.BuildDeviceLines | extract.py:223-233 | the loop builds the device lines in input order |
| Synthesis.TranspileToNetlist | extract.py:206-236 | the written text is the lines joined by newlines |
| Synthesis.TranspileLayout | extract.py:215-236 | sorted port lines come first, then PMOS lines, then NMOS lines, each in input order |
| Synthesis.ConnectedPortIsToken | extract.py:192-197 | with whitespace-free port names, the gate field is one token |
| Synthesis.ConnectedPortGroupIsToken | extract.py:199-204 | with whitespace-free port names, the source/drain fields are one token |
| Synthesis.TranspileLineReadsBack | extract.py:224-227 | a device line splits back into kind, id, gate, source, drain |
| Synthesis.NameNets | extract.py:243-248 | a net touching ports is named by one of its ports; any other net by its own id |
| Synthesis.NetOfMeaning | extract.py:256-262 | a terminal has a net iff some net lists it; then it takes the name of the last net listing it |
| Synthesis.NetOf | extract.py:256-262 | the net name recorded for a terminal (meaning in `NetOfMeaning`) |
| Synthesis.Terminal | extract.py:268-270 | `.get(part, "N/A")`: the terminal's net name or `N/A` (`TerminalMeaning`) |
| Synthesis.SetParts | extract.py:259-262 | the part loop maps exactly the given parts to the net's name |
| Synthesis.SetNet | extract.py:258-262 | the transistor loop maps exactly the net's terminals to its name |
| Synthesis.TerminalNames | extract.py:256-262 | the nested loops compute, per terminal, the name of the last net listing it |
| Synthesis.CmosLines | extract.py:264-273 | one line per transistor |
| Synthesis.CmosLine | extract.py:264-273 | `"{type} {id} {gate} {source} {drain}"`, PMOS for a transistor in the n-well; it splits back into those fields (`CmosLineReadsBack`) |
| Synthesis.CmosText | extract.py:264-281 | the sorted port lines then the transistor lines, joined by newlines with a final newline |
| Synthesis.BuildCmosLines | extract.py:264-273 | the loop builds each line with `N/A` for unlisted terminals |
| Synthesis.WriteCmosNetlist | extract.py:242-281 | the text is the sorted port lines, then the transistor lines in order, newline-joined and newline-terminated, for some admissible choice of net names |
| Synthesis.TerminalMeaning | extract.py:243-273 | an unattached terminal prints `N/A`; otherwise it prints a port of the last net listing it, or that net's id when the net has no ports |
| Synthesis.TerminalIsToken | extract.py:268-270 | with whitespace-free names, every terminal field is one token |
| Synthesis.CmosLineReadsBack | extract.py:272 | a transistor line splits back into polarity, id, gate, source, drain |

## Left out

- File and JSON I/O are not modelled: reading `.cmos` files, the tech file, writing output, `os.makedirs` and the `output/` paths. Netlists are sequences of lines, sub-circuit files a name-to-lines map, the tech file a `Tech` value, and written files the returned text.
- The geometry library (`gdstk`) is a given function `g` from two shapes to either a list of pieces or a raised exception. Bounding boxes are given with each shape, and `bounding_box()` is assumed not to raise. Reading GDSII and `get_polygons` are left out.
- Coordinates are exact reals, so IEEE rounding of the midpoints and of the 0.4/0.6 thresholds is not modelled.
- Python's `id()` keys become positions in the met1 list. The `parent` dict maps positions to positions rather than to polygon objects.
- Resolve.ResolveQueue: stops with Unresolved after a full pass with no progress. The source loops forever there; StuckForever proves every pending statement is blocked.
- Simulator.Simulate: INST recursion is bounded by a `depth` parameter and reports DepthExhausted beyond it. The source recurses without bound, and a self-instantiating netlist exhausts Python's stack.
- Simulator.Simulate: sub-circuit ports are read from the library once per statement; the source re-reads the file, which gives the same result.
- Text.Tokenize: only ASCII whitespace separates tokens; Python's `split()` also splits on other Unicode whitespace.
- Synthesis.WriteCmosNetlist: `list(conn["ports"])[0]` depends on set iteration order. The model allows any attached port, so the result is stated for some admissible naming.
- Synthesis.TranspileToNetlist: the port lines are built inputs first; the source follows the tech file's key order. The lines are sorted before use, so the text is the same.
- Transistors.FindTransistors: a candidate whose `bounding_box()` raises is not skipped, because bounding boxes are given.
- The blanket `except Exception` paths of the geometry calls are modelled as "no overlap / skip". A raise inside `polygon_belongs_to_net` makes the whole test false, as in the source.
- The `if not extraction_result` early return, the `except` that prints transpiling errors, and all `print` logging are not modelled. This includes the singles/pairs report of `extract()` and the orchestration in `extract` and `extractMain`.
- The interactive single-input prompt of `readfile` and the `simgds.py` command line are not modelled.
- KeyError on a malformed tech file (missing `layer` or `datatype`, or a missing `in`/`out` section in `find_connected_port`) is not modelled. The tech file is a well-formed `Tech` value.
