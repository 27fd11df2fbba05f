/**
 * The netlist text the extractor writes: `find_connected_port(_group)`,
 * the lines of `transpile_to_netlist_and_save`, and `write_cmos_netlist`
 * (extract.py).
 */
module Synthesis {
  import opened Wrappers
  import opened Text
  import opened Sorting
  import opened Layout
  import opened Transistors
  import opened Dicts
  import opened Connections

  /** What a terminal with no port or net prints. */
  const NA := "N/A"

  // ---------------------------------------------------------------------
  // Ports on a shape's layer.

  /** The name of the first declaration on layer `spec`. */
  function FirstPort(ds: seq<PortDecl>, spec: LayerSpec): (r: Option<string>)
    ensures r.None? <==> forall i :: 0 <= i < |ds| ==> ds[i].spec != spec
    ensures r.Some? ==> exists i :: 0 <= i < |ds| && ds[i].spec == spec && ds[i].name == r.value &&
                          forall j :: 0 <= j < i ==> ds[j].spec != spec
    decreases |ds|
  {
    if ds == [] then None
    else if ds[0].spec == spec then Some(ds[0].name)
    else
      var r := FirstPort(ds[1..], spec);
      assert forall i :: 0 <= i < |ds| - 1 ==> ds[1..][i] == ds[i + 1];
      assert r.Some? ==> exists i :: 0 <= i < |ds| && ds[i].spec == spec && ds[i].name == r.value &&
                           forall j :: 0 <= j < i ==> ds[j].spec != spec by {
        if r.Some? {
          var i :| 0 <= i < |ds| - 1 && ds[1..][i].spec == spec && ds[1..][i].name == r.value &&
                   forall j :: 0 <= j < i ==> ds[1..][j].spec != spec;
          assert forall j :: 0 <= j < i + 1 ==> ds[j].spec != spec by {
            forall j | 0 < j < i + 1 ensures ds[j].spec != spec {
              assert ds[j] == ds[1..][j - 1];
            }
          }
        }
      }
      r
  }

  /** Searching a concatenation searches the first part first. */
  lemma {:induction false} FirstPortConcat(a: seq<PortDecl>, b: seq<PortDecl>, spec: LayerSpec)
    ensures FirstPort(a + b, spec) == if FirstPort(a, spec).Some? then FirstPort(a, spec) else FirstPort(b, spec)
    decreases |a|
  {
    if a != [] {
      assert (a + b)[1..] == a[1..] + b;
      FirstPortConcat(a[1..], b, spec);
    } else {
      assert a + b == b;
    }
  }

  /** `find_connected_port`: the first `in` port, then the first `out` port, on the polygon's layer. */
  function ConnectedPort(tech: Tech, s: Shape): string
  {
    match FirstPort(tech.ins + tech.outs, s.spec)
    case Some(name) => name
    case None => NA
  }

  /**
   * An input port on the polygon's layer wins over any output port; with no
   * port on that layer the answer is `N/A`.
   */
  lemma ConnectedPortMeaning(tech: Tech, s: Shape)
    ensures FirstPort(tech.ins, s.spec).Some? ==> ConnectedPort(tech, s) == FirstPort(tech.ins, s.spec).value
    ensures FirstPort(tech.ins, s.spec).None? && FirstPort(tech.outs, s.spec).Some? ==>
      ConnectedPort(tech, s) == FirstPort(tech.outs, s.spec).value
    ensures ((forall i :: 0 <= i < |tech.ins| ==> tech.ins[i].spec != s.spec) &&
             (forall i :: 0 <= i < |tech.outs| ==> tech.outs[i].spec != s.spec)) ==> ConnectedPort(tech, s) == NA
  {
    FirstPortConcat(tech.ins, tech.outs, s.spec);
  }

  /** `find_connected_port_group`: the answer for the first polygon that gives something other than `N/A`. */
  function ConnectedPortGroup(tech: Tech, ps: seq<Shape>): string
  {
    if ps == [] then NA
    else if ConnectedPort(tech, ps[0]) != NA then ConnectedPort(tech, ps[0])
    else ConnectedPortGroup(tech, ps[1..])
  }

  /** `N/A` exactly when no polygon is on a port layer; otherwise the port of the first polygon that is. */
  lemma {:induction false} ConnectedPortGroupMeaning(tech: Tech, ps: seq<Shape>)
    ensures ConnectedPortGroup(tech, ps) == NA <==> forall i :: 0 <= i < |ps| ==> ConnectedPort(tech, ps[i]) == NA
    ensures ConnectedPortGroup(tech, ps) != NA ==>
      exists i :: 0 <= i < |ps| && ConnectedPort(tech, ps[i]) == ConnectedPortGroup(tech, ps) &&
        forall j :: 0 <= j < i ==> ConnectedPort(tech, ps[j]) == NA
    decreases |ps|
  {
    if ps != [] && ConnectedPort(tech, ps[0]) == NA {
      var r := ConnectedPortGroup(tech, ps[1..]);
      ConnectedPortGroupMeaning(tech, ps[1..]);
      assert forall i :: 0 <= i < |ps| - 1 ==> ps[1..][i] == ps[i + 1];
      if r != NA {
        var i :| 0 <= i < |ps| - 1 && ConnectedPort(tech, ps[1..][i]) == r &&
                 forall j :: 0 <= j < i ==> ConnectedPort(tech, ps[1..][j]) == NA;
        assert forall j :: 0 <= j < i + 1 ==> ConnectedPort(tech, ps[j]) == NA by {
          forall j | 0 < j < i + 1 ensures ConnectedPort(tech, ps[j]) == NA {
            assert ps[j] == ps[1..][j - 1];
          }
        }
      } else {
        forall i | 0 < i < |ps| ensures ConnectedPort(tech, ps[i]) == NA {
          assert ps[i] == ps[1..][i - 1];
        }
      }
    }
  }

  // ---------------------------------------------------------------------
  // Port lines.

  /** `f"PORT {direction.upper()} {name}"`. */
  function PortLine(dir: string, name: string): string
  {
    Join(["PORT", dir, name], " ")
  }

  /** The port lines before sorting: every `in` port, then every `out` port. */
  function PortLines(tech: Tech): (lines: seq<string>)
    ensures |lines| == |tech.ins| + |tech.outs|
  {
    seq(|tech.ins|, i requires 0 <= i < |tech.ins| => PortLine("IN", tech.ins[i].name)) +
    seq(|tech.outs|, i requires 0 <= i < |tech.outs| => PortLine("OUT", tech.outs[i].name))
  }

  /** The loops that collect the port lines. */
  method BuildPortLines(tech: Tech) returns (lines: seq<string>)
    ensures lines == PortLines(tech)
  {
    lines := [];
    for i := 0 to |tech.ins|
      invariant |lines| == i
      invariant forall k :: 0 <= k < i ==> lines[k] == PortLine("IN", tech.ins[k].name)
    {
      lines := lines + [PortLine("IN", tech.ins[i].name)];
    }
    for i := 0 to |tech.outs|
      invariant |lines| == |tech.ins| + i
      invariant forall k :: 0 <= k < |tech.ins| ==> lines[k] == PortLine("IN", tech.ins[k].name)
      invariant forall k :: 0 <= k < i ==> lines[|tech.ins| + k] == PortLine("OUT", tech.outs[k].name)
    {
      lines := lines + [PortLine("OUT", tech.outs[i].name)];
    }
  }

  /** `sorted(port_lines)`: in string order, and exactly the declared port lines. */
  lemma SortedPortLines(tech: Tech)
    ensures SortedBy(SortBy(PortLines(tech), StrLe), StrLe)
    ensures multiset(SortBy(PortLines(tech), StrLe)) == multiset(PortLines(tech))
  {
    StrLePreorder(PortLines(tech));
    SortBySorted(PortLines(tech), StrLe);
  }

  /** A port line reads back as its three fields when the port name is a single token. */
  lemma PortLineReadsBack(dir: string, name: string)
    requires dir == "IN" || dir == "OUT"
    requires IsToken(name)
    ensures Tokenize(PortLine(dir, name)) == ["PORT", dir, name]
  {
    var ws := ["PORT", dir, name];
    assert IsToken("PORT") && IsToken(dir);
    assert AllTokens(ws) by {
      forall k | 0 <= k < |ws| ensures IsToken(ws[k]) {
      }
    }
    TokenizeJoin(ws);
  }

  // ---------------------------------------------------------------------
  // `transpile_to_netlist_and_save`.

  /** `f"{kind} {id} {gate} {source} {drain}"` with the terminals named by port. */
  function TranspileLine(kind: string, t: Transistor, tech: Tech): string
  {
    Join([kind, t.id, ConnectedPort(tech, t.dev.poly), ConnectedPortGroup(tech, t.dev.source),
          ConnectedPortGroup(tech, t.dev.drain)], " ")
  }

  /** The lines of one list of transistors, in list order. */
  function DeviceLines(kind: string, ts: seq<Transistor>, tech: Tech): (lines: seq<string>)
    ensures |lines| == |ts|
  {
    seq(|ts|, i requires 0 <= i < |ts| => TranspileLine(kind, ts[i], tech))
  }

  /** The netlist lines: sorted port lines, then the PMOS lines, then the NMOS lines. */
  function TranspileLines(tech: Tech, nmos: seq<Transistor>, pmos: seq<Transistor>): seq<string>
  {
    SortBy(PortLines(tech), StrLe) + DeviceLines("PMOS", pmos, tech) + DeviceLines("NMOS", nmos, tech)
  }

  /** One of the two transistor loops. */
  method BuildDeviceLines(kind: string, ts: seq<Transistor>, tech: Tech) returns (lines: seq<string>)
    ensures lines == DeviceLines(kind, ts, tech)
  {
    lines := [];
    for i := 0 to |ts|
      invariant |lines| == i
      invariant forall k :: 0 <= k < i ==> lines[k] == TranspileLine(kind, ts[k], tech)
    {
      var gate := ConnectedPort(tech, ts[i].dev.poly);
      var source := ConnectedPortGroup(tech, ts[i].dev.source);
      var drain := ConnectedPortGroup(tech, ts[i].dev.drain);
      lines := lines + [Join([kind, ts[i].id, gate, source, drain], " ")];
    }
  }

  /** The text written by `transpile_to_netlist_and_save`. */
  method TranspileToNetlist(tech: Tech, nmos: seq<Transistor>, pmos: seq<Transistor>) returns (text: string)
    ensures text == Join(TranspileLines(tech, nmos, pmos), "\n")
  {
    var portLines := BuildPortLines(tech);
    var pmosLines := BuildDeviceLines("PMOS", pmos, tech);
    var nmosLines := BuildDeviceLines("NMOS", nmos, tech);
    text := Join(SortBy(portLines, StrLe) + pmosLines + nmosLines, "\n");
  }

  /** The port lines come first and in string order; the device lines follow in list order, PMOS first. */
  lemma TranspileLayout(tech: Tech, nmos: seq<Transistor>, pmos: seq<Transistor>)
    ensures |TranspileLines(tech, nmos, pmos)| == |tech.ins| + |tech.outs| + |pmos| + |nmos|
    ensures SortedBy(TranspileLines(tech, nmos, pmos)[..|tech.ins| + |tech.outs|], StrLe)
    ensures multiset(TranspileLines(tech, nmos, pmos)[..|tech.ins| + |tech.outs|]) == multiset(PortLines(tech))
    ensures TranspileLines(tech, nmos, pmos)[|tech.ins| + |tech.outs|..] ==
      DeviceLines("PMOS", pmos, tech) + DeviceLines("NMOS", nmos, tech)
  {
    var sorted := SortBy(PortLines(tech), StrLe);
    SortedPortLines(tech);
    assert TranspileLines(tech, nmos, pmos) == sorted + (DeviceLines("PMOS", pmos, tech) + DeviceLines("NMOS", nmos, tech));
  }

  /** Every port name is a single token. */
  ghost predicate TokenNames(tech: Tech)
  {
    && (forall i :: 0 <= i < |tech.ins| ==> IsToken(tech.ins[i].name))
    && (forall i :: 0 <= i < |tech.outs| ==> IsToken(tech.outs[i].name))
  }

  lemma FirstPortIsToken(ds: seq<PortDecl>, spec: LayerSpec)
    requires forall i :: 0 <= i < |ds| ==> IsToken(ds[i].name)
    ensures FirstPort(ds, spec).Some? ==> IsToken(FirstPort(ds, spec).value)
  {
  }

  lemma NAIsToken()
    ensures IsToken(NA)
  {
    assert forall i :: 0 <= i < |NA| ==> !IsSpace(NA[i]);
  }

  lemma ConnectedPortIsToken(tech: Tech, s: Shape)
    requires TokenNames(tech)
    ensures IsToken(ConnectedPort(tech, s))
  {
    var ds := tech.ins + tech.outs;
    assert forall i :: 0 <= i < |ds| ==> IsToken(ds[i].name) by {
      forall i | 0 <= i < |ds| ensures IsToken(ds[i].name) {
        if i >= |tech.ins| {
          assert ds[i] == tech.outs[i - |tech.ins|];
        }
      }
    }
    FirstPortIsToken(ds, s.spec);
    NAIsToken();
  }

  lemma ConnectedPortGroupIsToken(tech: Tech, ps: seq<Shape>)
    requires TokenNames(tech)
    ensures IsToken(ConnectedPortGroup(tech, ps))
  {
    ConnectedPortGroupMeaning(tech, ps);
    if ConnectedPortGroup(tech, ps) != NA {
      var i :| 0 <= i < |ps| && ConnectedPort(tech, ps[i]) == ConnectedPortGroup(tech, ps);
      ConnectedPortIsToken(tech, ps[i]);
    } else {
      NAIsToken();
    }
  }

  /**
   * With token names, a device line reads back as its kind, id and three
   * terminals, and each terminal is `N/A` or the port named for it.
   */
  lemma TranspileLineReadsBack(kind: string, t: Transistor, tech: Tech)
    requires IsToken(kind) && IsToken(t.id) && TokenNames(tech)
    ensures Tokenize(TranspileLine(kind, t, tech)) ==
      [kind, t.id, ConnectedPort(tech, t.dev.poly), ConnectedPortGroup(tech, t.dev.source),
       ConnectedPortGroup(tech, t.dev.drain)]
  {
    var ws := [kind, t.id, ConnectedPort(tech, t.dev.poly), ConnectedPortGroup(tech, t.dev.source),
               ConnectedPortGroup(tech, t.dev.drain)];
    ConnectedPortIsToken(tech, t.dev.poly);
    ConnectedPortGroupIsToken(tech, t.dev.source);
    ConnectedPortGroupIsToken(tech, t.dev.drain);
    assert AllTokens(ws) by {
      forall k | 0 <= k < |ws| ensures IsToken(ws[k]) {
      }
    }
    TokenizeJoin(ws);
  }

  // ---------------------------------------------------------------------
  // `write_cmos_netlist`.

  /** Every net id of the connections has a name. */
  ghost predicate Named(conns: Dict<string, Connection>, names: map<string, string>)
  {
    forall i :: 0 <= i < |conns| ==> conns[i].0 in names
  }

  /** `netid_to_ports`: a net touching ports is named by one of them, any other net by its own id. */
  ghost predicate ChosenNames(conns: Dict<string, Connection>, names: map<string, string>)
  {
    && Named(conns, names)
    && forall i :: 0 <= i < |conns| ==>
         if conns[i].1.ports == {} then names[conns[i].0] == conns[i].0 else names[conns[i].0] in conns[i].1.ports
  }

  /** The loop that names the nets; `list(ports)[0]` picks an arbitrary element, here any one of them. */
  method NameNets(conns: Dict<string, Connection>) returns (names: map<string, string>)
    requires DistinctKeys(conns)
    ensures ChosenNames(conns, names)
  {
    names := map[];
    for i := 0 to |conns|
      invariant ChosenNames(conns[..i], names)
      invariant forall id :: id in names ==> exists k :: 0 <= k < i && conns[k].0 == id
    {
      var (id, conn) := conns[i];
      if conn.ports != {} {
        var port :| port in conn.ports;
        names := names[id := port];
      } else {
        names := names[id := id];
      }
      assert forall k :: 0 <= k < i ==> conns[..i + 1][k] == conns[..i][k];
    }
    assert conns[..|conns|] == conns;
  }

  /** The name of the last net (in dictionary order) that lists part `p` of transistor `id`. */
  function NetOf(conns: Dict<string, Connection>, names: map<string, string>, id: string, p: Part): Option<string>
    requires Named(conns, names)
  {
    if conns == [] then None
    else
      var n := |conns| - 1;
      assert Named(conns[..n], names) by {
        assert forall k :: 0 <= k < n ==> conns[..n][k] == conns[k];
      }
      if Has(conns[n].1.terminals, id, p) then Some(names[conns[n].0]) else NetOf(conns[..n], names, id, p)
  }

  /** A terminal listed on no net has no name; otherwise it takes the name of the last net listing it. */
  lemma {:induction false} NetOfMeaning(conns: Dict<string, Connection>, names: map<string, string>, id: string, p: Part)
    requires Named(conns, names)
    ensures NetOf(conns, names, id, p).None? <==> forall i :: 0 <= i < |conns| ==> !Has(conns[i].1.terminals, id, p)
    ensures NetOf(conns, names, id, p).Some? ==>
      exists i :: 0 <= i < |conns| && Has(conns[i].1.terminals, id, p) && NetOf(conns, names, id, p).value == names[conns[i].0] &&
        forall j :: i < j < |conns| ==> !Has(conns[j].1.terminals, id, p)
  {
    if conns != [] {
      var n := |conns| - 1;
      assert forall k :: 0 <= k < n ==> conns[..n][k] == conns[k];
      NetOfMeaning(conns[..n], names, id, p);
    }
  }

  /** `transistor_port_map[t_id].get(part)`, with the nested dictionary flattened. */
  function PortMapGet(tpm: map<(string, Part), string>, id: string, p: Part): Option<string>
  {
    if (id, p) in tpm then Some(tpm[(id, p)]) else None
  }

  /** The loop over one transistor's parts on one net. */
  method SetParts(tpm: map<(string, Part), string>, id: string, parts: set<Part>, name: string)
    returns (tpm': map<(string, Part), string>)
    ensures forall id', p {:trigger PortMapGet(tpm', id', p)} ::
      PortMapGet(tpm', id', p) == if id' == id && p in parts then Some(name) else PortMapGet(tpm, id', p)
  {
    tpm' := tpm;
    var left := parts;
    while left != {}
      invariant left <= parts
      invariant forall id', p {:trigger PortMapGet(tpm', id', p)} ::
        PortMapGet(tpm', id', p) == if id' == id && p in parts - left then Some(name) else PortMapGet(tpm, id', p)
      decreases |left|
    {
      var p :| p in left;
      ghost var before := tpm';
      tpm' := tpm'[(id, p) := name];
      left := left - {p};
      forall id'', q ensures PortMapGet(tpm', id'', q) == if id'' == id && q in parts - left then Some(name) else PortMapGet(tpm, id'', q) {
        assert PortMapGet(before, id'', q) == if id'' == id && q in parts - (left + {p}) then Some(name) else PortMapGet(tpm, id'', q);
      }
    }
  }

  /** The loop over the transistors listed on one net. */
  method SetNet(tpm: map<(string, Part), string>, terminals: Terminals, name: string)
    returns (tpm': map<(string, Part), string>)
    ensures forall id, p {:trigger PortMapGet(tpm', id, p)} ::
      PortMapGet(tpm', id, p) == if Has(terminals, id, p) then Some(name) else PortMapGet(tpm, id, p)
  {
    tpm' := tpm;
    var left := terminals.Keys;
    while left != {}
      invariant left <= terminals.Keys
      invariant forall id, p {:trigger PortMapGet(tpm', id, p)} ::
        PortMapGet(tpm', id, p) == if id !in left && Has(terminals, id, p) then Some(name) else PortMapGet(tpm, id, p)
      decreases |left|
    {
      var id :| id in left;
      tpm' := SetParts(tpm', id, terminals[id], name);
      left := left - {id};
    }
  }

  /** `transistor_port_map`: every listed terminal takes the name of the last net that lists it. */
  method TerminalNames(conns: Dict<string, Connection>, names: map<string, string>)
    returns (tpm: map<(string, Part), string>)
    requires Named(conns, names)
    ensures forall id, p {:trigger PortMapGet(tpm, id, p)} :: PortMapGet(tpm, id, p) == NetOf(conns, names, id, p)
  {
    tpm := map[];
    for i := 0 to |conns|
      invariant Named(conns[..i], names)
      invariant forall id, p {:trigger PortMapGet(tpm, id, p)} :: PortMapGet(tpm, id, p) == NetOf(conns[..i], names, id, p)
    {
      assert conns[..i + 1][..i] == conns[..i];
      tpm := SetNet(tpm, conns[i].1.terminals, names[conns[i].0]);
    }
    assert conns[..|conns|] == conns;
  }

  /** The name printed for a terminal: its net's name, or `N/A`. */
  function Terminal(conns: Dict<string, Connection>, names: map<string, string>, id: string, p: Part): string
    requires Named(conns, names)
  {
    match NetOf(conns, names, id, p)
    case Some(name) => name
    case None => NA
  }

  /** `f"{transistor_type} {t_id} {gate} {source} {drain}"`. */
  function CmosLine(conns: Dict<string, Connection>, names: map<string, string>, t: Transistor): string
    requires Named(conns, names)
  {
    Join([if t.dev.inWell then "PMOS" else "NMOS", t.id,
          Terminal(conns, names, t.id, Gate), Terminal(conns, names, t.id, Source), Terminal(conns, names, t.id, Drain)], " ")
  }

  function CmosLines(conns: Dict<string, Connection>, names: map<string, string>, ts: seq<Transistor>): (lines: seq<string>)
    requires Named(conns, names)
    ensures |lines| == |ts|
  {
    seq(|ts|, i requires 0 <= i < |ts| => CmosLine(conns, names, ts[i]))
  }

  /** The file `write_cmos_netlist` writes: sorted port lines, the transistor lines, and a final newline. */
  function CmosText(conns: Dict<string, Connection>, names: map<string, string>, ts: seq<Transistor>, tech: Tech): string
    requires Named(conns, names)
  {
    Join(SortBy(PortLines(tech), StrLe) + CmosLines(conns, names, ts), "\n") + "\n"
  }

  /** The loop that builds the transistor lines. */
  method BuildCmosLines(conns: Dict<string, Connection>, names: map<string, string>, ts: seq<Transistor>,
                        tpm: map<(string, Part), string>) returns (lines: seq<string>)
    requires Named(conns, names)
    requires forall id, p {:trigger PortMapGet(tpm, id, p)} :: PortMapGet(tpm, id, p) == NetOf(conns, names, id, p)
    ensures lines == CmosLines(conns, names, ts)
  {
    lines := [];
    for i := 0 to |ts|
      invariant |lines| == i
      invariant forall k :: 0 <= k < i ==> lines[k] == CmosLine(conns, names, ts[k])
    {
      var t := ts[i];
      var kind := if t.dev.inWell then "PMOS" else "NMOS";
      var gate := if (t.id, Gate) in tpm then tpm[(t.id, Gate)] else NA;
      var source := if (t.id, Source) in tpm then tpm[(t.id, Source)] else NA;
      var drain := if (t.id, Drain) in tpm then tpm[(t.id, Drain)] else NA;
      assert PortMapGet(tpm, t.id, Gate) == NetOf(conns, names, t.id, Gate);
      assert PortMapGet(tpm, t.id, Source) == NetOf(conns, names, t.id, Source);
      assert PortMapGet(tpm, t.id, Drain) == NetOf(conns, names, t.id, Drain);
      lines := lines + [Join([kind, t.id, gate, source, drain], " ")];
    }
  }

  /** `write_cmos_netlist`, for some choice of port name on each net touching ports. */
  method WriteCmosNetlist(conns: Dict<string, Connection>, ts: seq<Transistor>, tech: Tech) returns (text: string)
    requires DistinctKeys(conns)
    ensures exists names :: ChosenNames(conns, names) && text == CmosText(conns, names, ts, tech)
  {
    var names := NameNets(conns);
    var portLines := BuildPortLines(tech);
    var tpm := TerminalNames(conns, names);
    var lines := BuildCmosLines(conns, names, ts, tpm);
    text := Join(SortBy(portLines, StrLe) + lines, "\n") + "\n";
    assert text == CmosText(conns, names, ts, tech);
  }

  /**
   * A terminal prints `N/A` when no net lists it; otherwise it prints the
   * name of the last net listing it, which is one of that net's ports or,
   * for a net without ports, the net's id.
   */
  lemma TerminalMeaning(conns: Dict<string, Connection>, names: map<string, string>, id: string, p: Part)
    requires ChosenNames(conns, names)
    ensures (forall i :: 0 <= i < |conns| ==> !Has(conns[i].1.terminals, id, p)) ==> Terminal(conns, names, id, p) == NA
    ensures (exists i :: 0 <= i < |conns| && Has(conns[i].1.terminals, id, p)) ==>
      exists i :: 0 <= i < |conns| && Has(conns[i].1.terminals, id, p) &&
        (forall j :: i < j < |conns| ==> !Has(conns[j].1.terminals, id, p)) &&
        (if conns[i].1.ports == {} then Terminal(conns, names, id, p) == conns[i].0
         else Terminal(conns, names, id, p) in conns[i].1.ports)
  {
    NetOfMeaning(conns, names, id, p);
  }

  /** Net ids and port names without whitespace. */
  ghost predicate TokenNets(conns: Dict<string, Connection>)
  {
    forall i :: 0 <= i < |conns| ==> IsToken(conns[i].0) && forall port :: port in conns[i].1.ports ==> IsToken(port)
  }

  lemma TerminalIsToken(conns: Dict<string, Connection>, names: map<string, string>, id: string, p: Part)
    requires ChosenNames(conns, names) && TokenNets(conns)
    ensures IsToken(Terminal(conns, names, id, p))
  {
    NetOfMeaning(conns, names, id, p);
    NAIsToken();
  }

  /**
   * With token names, a transistor line of the CMOS netlist reads back as
   * its polarity, its id and the names of its gate, source and drain nets.
   */
  lemma CmosLineReadsBack(conns: Dict<string, Connection>, names: map<string, string>, t: Transistor)
    requires ChosenNames(conns, names) && TokenNets(conns) && IsToken(t.id)
    ensures Tokenize(CmosLine(conns, names, t)) ==
      [if t.dev.inWell then "PMOS" else "NMOS", t.id,
       Terminal(conns, names, t.id, Gate), Terminal(conns, names, t.id, Source), Terminal(conns, names, t.id, Drain)]
  {
    var ws := [if t.dev.inWell then "PMOS" else "NMOS", t.id,
               Terminal(conns, names, t.id, Gate), Terminal(conns, names, t.id, Source), Terminal(conns, names, t.id, Drain)];
    TerminalIsToken(conns, names, t.id, Gate);
    TerminalIsToken(conns, names, t.id, Source);
    TerminalIsToken(conns, names, t.id, Drain);
    assert IsToken("PMOS") && IsToken("NMOS") by {
      assert forall i :: 0 <= i < 4 ==> !IsSpace("PMOS"[i]) && !IsSpace("NMOS"[i]);
    }
    assert AllTokens(ws) by {
      forall k | 0 <= k < |ws| ensures IsToken(ws[k]) {
      }
    }
    TokenizeJoin(ws);
  }
}
