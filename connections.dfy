/**
 * `find_net_object_connections` (extract.py): for every metal net, which
 * transistor terminals and which technology ports touch it.
 */
module Connections {
  import opened Wrappers
  import opened Layout
  import opened Transistors
  import opened Dicts
  import opened MetalNets

  // ---------------------------------------------------------------------
  // Touching a net.

  /**
   * `polygon_belongs_to_net`: `any` over the net's polygons stops at the
   * first non-empty intersection; an intersection that raises ends the
   * whole test with `False`, whatever the later polygons would give.
   */
  function BelongsTo(g: Geometry, poly: Shape, netPolys: seq<Shape>): (r: bool)
    ensures r <==> exists k :: 0 <= k < |netPolys| && Overlap(g, poly, netPolys[k]) &&
                     forall m :: 0 <= m < k ==> g(poly, netPolys[m]) == Pieces([])
    decreases |netPolys|
  {
    if netPolys == [] then false
    else
      var rest := BelongsTo(g, poly, netPolys[1..]);
      assert forall m :: 0 <= m < |netPolys| - 1 ==> netPolys[1..][m] == netPolys[m + 1];
      match g(poly, netPolys[0])
      case Raised => false
      case Pieces(ps) =>
        if ps != [] then true
        else
          assert rest ==> exists k :: 0 <= k < |netPolys| && Overlap(g, poly, netPolys[k]) &&
                            forall m :: 0 <= m < k ==> g(poly, netPolys[m]) == Pieces([]) by {
            if rest {
              var k :| 0 <= k < |netPolys| - 1 && Overlap(g, poly, netPolys[1..][k]) &&
                       forall m :: 0 <= m < k ==> g(poly, netPolys[1..][m]) == Pieces([]);
              assert forall m :: 0 <= m < k + 1 ==> g(poly, netPolys[m]) == Pieces([]) by {
                forall m | 0 < m < k + 1 ensures g(poly, netPolys[m]) == Pieces([]) {
                  assert netPolys[m] == netPolys[1..][m - 1];
                }
              }
            }
          }
          assert (exists k :: 0 <= k < |netPolys| && Overlap(g, poly, netPolys[k]) &&
                    forall m :: 0 <= m < k ==> g(poly, netPolys[m]) == Pieces([])) ==> rest by {
            if exists k :: 0 <= k < |netPolys| && Overlap(g, poly, netPolys[k]) &&
                 forall m :: 0 <= m < k ==> g(poly, netPolys[m]) == Pieces([]) {
              var k :| 0 <= k < |netPolys| && Overlap(g, poly, netPolys[k]) &&
                       forall m :: 0 <= m < k ==> g(poly, netPolys[m]) == Pieces([]);
              assert k > 0;
              assert netPolys[1..][k - 1] == netPolys[k];
              assert forall m :: 0 <= m < k - 1 ==> g(poly, netPolys[1..][m]) == Pieces([]);
            }
          }
          rest
  }

  /** Where no intersection raises, a polygon belongs to a net exactly when it overlaps one of its polygons. */
  lemma {:induction false} BelongsWithoutErrors(g: Geometry, poly: Shape, netPolys: seq<Shape>)
    requires forall k :: 0 <= k < |netPolys| ==> g(poly, netPolys[k]).Pieces?
    ensures BelongsTo(g, poly, netPolys) <==> exists k :: 0 <= k < |netPolys| && Overlap(g, poly, netPolys[k])
    decreases |netPolys|
  {
    if netPolys != [] {
      assert forall k :: 0 <= k < |netPolys| - 1 ==> netPolys[1..][k] == netPolys[k + 1];
      BelongsWithoutErrors(g, poly, netPolys[1..]);
      if exists k :: 0 <= k < |netPolys| && Overlap(g, poly, netPolys[k]) {
        var k :| 0 <= k < |netPolys| && Overlap(g, poly, netPolys[k]);
        if k > 0 && !Overlap(g, poly, netPolys[0]) {
          assert Overlap(g, poly, netPolys[1..][k - 1]);
        }
      }
    }
  }

  /** Whether any of `elems` belongs to the net: the loop over a part's polygons. */
  function AnyBelongs(g: Geometry, elems: seq<Shape>, netPolys: seq<Shape>): (r: bool)
    ensures r <==> exists i :: 0 <= i < |elems| && BelongsTo(g, elems[i], netPolys)
  {
    if elems == [] then false
    else
      var n := |elems| - 1;
      assert forall i :: 0 <= i < n ==> elems[..n][i] == elems[i];
      AnyBelongs(g, elems[..n], netPolys) || BelongsTo(g, elems[n], netPolys)
  }

  // ---------------------------------------------------------------------
  // Transistor terminals.

  /** A transistor part, named `gate`, `source` or `drain` in the result. */
  datatype Part = Gate | Source | Drain

  /** The parts in the order they are examined: `poly`, `source_contacts`, `drain_contacts`. */
  const Parts: seq<Part> := [Gate, Source, Drain]

  /** The polygons of a part: the gate polygon is not a list, so it stands alone. */
  function Elems(t: Transistor, p: Part): seq<Shape>
  {
    match p
    case Gate => [t.dev.poly]
    case Source => t.dev.source
    case Drain => t.dev.drain
  }

  /** `net_connections[net_id]["transistors"]`: transistor id to the parts touching the net. */
  type Terminals = map<string, set<Part>>

  predicate Has(m: Terminals, id: string, p: Part)
  {
    id in m && p in m[id]
  }

  /** No transistor is listed without a part. */
  ghost predicate NoEmptyEntries(m: Terminals)
  {
    forall id :: id in m ==> m[id] != {}
  }

  /** Creates the entry for `id` when it is missing, then adds `p` to it. */
  function Add(m: Terminals, id: string, p: Part): (r: Terminals)
    ensures forall id', p' :: Has(r, id', p') <==> Has(m, id', p') || (id' == id && p' == p)
    ensures NoEmptyEntries(m) ==> NoEmptyEntries(r)
  {
    m[id := (if id in m then m[id] else {}) + {p}]
  }

  /** Transistor `t`'s parts among `parts` that touch the net, added in turn. */
  function Mark(g: Geometry, netPolys: seq<Shape>, m: Terminals, t: Transistor, parts: seq<Part>): (r: Terminals)
    ensures NoEmptyEntries(m) ==> NoEmptyEntries(r)
  {
    if parts == [] then m
    else
      var m' := Mark(g, netPolys, m, t, parts[..|parts| - 1]);
      var p := parts[|parts| - 1];
      if AnyBelongs(g, Elems(t, p), netPolys) then Add(m', t.id, p) else m'
  }

  /** The terminal map of one net after the first transistors have been examined. */
  function TerminalsOf(g: Geometry, netPolys: seq<Shape>, ts: seq<Transistor>): (r: Terminals)
    ensures NoEmptyEntries(r)
  {
    if ts == [] then map[]
    else Mark(g, netPolys, TerminalsOf(g, netPolys, ts[..|ts| - 1]), ts[|ts| - 1], Parts)
  }

  lemma {:induction false} MarkMeaning(g: Geometry, netPolys: seq<Shape>, m: Terminals, t: Transistor, parts: seq<Part>,
                                       id: string, p: Part)
    ensures Has(Mark(g, netPolys, m, t, parts), id, p) <==>
      Has(m, id, p) || (id == t.id && p in parts && AnyBelongs(g, Elems(t, p), netPolys))
  {
    if parts != [] {
      var n := |parts| - 1;
      MarkMeaning(g, netPolys, m, t, parts[..n], id, p);
      assert parts == parts[..n] + [parts[n]];
    }
  }

  /**
   * A transistor id lists a part exactly when some transistor with that id
   * has a polygon of that part belonging to the net.
   */
  lemma {:induction false} TerminalsMeaning(g: Geometry, netPolys: seq<Shape>, ts: seq<Transistor>, id: string, p: Part)
    ensures Has(TerminalsOf(g, netPolys, ts), id, p) <==>
      exists i :: 0 <= i < |ts| && ts[i].id == id && AnyBelongs(g, Elems(ts[i], p), netPolys)
  {
    if ts != [] {
      var n := |ts| - 1;
      var prev := TerminalsOf(g, netPolys, ts[..n]);
      TerminalsMeaning(g, netPolys, ts[..n], id, p);
      MarkMeaning(g, netPolys, prev, ts[n], Parts, id, p);
      assert p in Parts;
      if Has(TerminalsOf(g, netPolys, ts), id, p) {
        if Has(prev, id, p) {
          var i :| 0 <= i < n && ts[..n][i].id == id && AnyBelongs(g, Elems(ts[..n][i], p), netPolys);
          assert ts[..n][i] == ts[i];
        }
      } else {
        forall i | 0 <= i < |ts| ensures !(ts[i].id == id && AnyBelongs(g, Elems(ts[i], p), netPolys)) {
          if i < n {
            assert ts[..n][i] == ts[i];
          }
        }
      }
    }
  }

  /** The innermost loop: mark `p` once some polygon of it touches the net; marking again changes nothing. */
  method MarkPart(g: Geometry, netPolys: seq<Shape>, m: Terminals, t: Transistor, p: Part) returns (m': Terminals)
    ensures m' == if AnyBelongs(g, Elems(t, p), netPolys) then Add(m, t.id, p) else m
  {
    var elems := Elems(t, p);
    m' := m;
    for k := 0 to |elems|
      invariant m' == if AnyBelongs(g, elems[..k], netPolys) then Add(m, t.id, p) else m
    {
      assert elems[..k + 1][..k] == elems[..k];
      if BelongsTo(g, elems[k], netPolys) {
        m' := Add(m', t.id, p);
      }
    }
    assert elems[..|elems|] == elems;
  }

  /** The loop over a transistor's three parts. */
  method MarkTransistor(g: Geometry, netPolys: seq<Shape>, m: Terminals, t: Transistor) returns (m': Terminals)
    ensures m' == Mark(g, netPolys, m, t, Parts)
  {
    m' := m;
    for q := 0 to |Parts|
      invariant m' == Mark(g, netPolys, m, t, Parts[..q])
    {
      assert Parts[..q + 1][..q] == Parts[..q];
      m' := MarkPart(g, netPolys, m', t, Parts[q]);
    }
    assert Parts[..|Parts|] == Parts;
  }

  /** The loop over the transistors for one net. */
  method TerminalAttachments(g: Geometry, netPolys: seq<Shape>, ts: seq<Transistor>) returns (m: Terminals)
    ensures m == TerminalsOf(g, netPolys, ts)
  {
    m := map[];
    for i := 0 to |ts|
      invariant m == TerminalsOf(g, netPolys, ts[..i])
    {
      assert ts[..i + 1][..i] == ts[..i];
      m := MarkTransistor(g, netPolys, m, ts[i]);
    }
    assert ts[..|ts|] == ts;
  }

  // ---------------------------------------------------------------------
  // Ports.

  function Entries(ds: seq<PortDecl>): (es: seq<(string, LayerSpec)>)
    ensures |es| == |ds| && forall i :: 0 <= i < |ds| ==> es[i] == (ds[i].name, ds[i].spec)
  {
    seq(|ds|, i requires 0 <= i < |ds| => (ds[i].name, ds[i].spec))
  }

  /** `{**tech.get("in", {}), **tech.get("out", {})}`. */
  function TechPorts(tech: Tech): Dict<string, LayerSpec>
  {
    FromEntries(Entries(tech.ins) + Entries(tech.outs))
  }

  /** A port declared in both tables takes its `out` layer; each name is listed once. */
  lemma TechPortsLookup(tech: Tech, name: string)
    ensures DistinctKeys(TechPorts(tech))
    ensures Get(TechPorts(tech), name) ==
      if LastValue(Entries(tech.outs), name).Some? then LastValue(Entries(tech.outs), name)
      else LastValue(Entries(tech.ins), name)
  {
    GetFromEntries(Entries(tech.ins) + Entries(tech.outs), name);
    LastValueConcat(Entries(tech.ins), Entries(tech.outs), name);
  }

  /** The polygons on a port's layer, for every port in turn: `port_polygons_by_name`. */
  function PortShapes(ports: Dict<string, LayerSpec>, allPolys: seq<Shape>): (byPort: seq<seq<Shape>>)
    ensures |byPort| == |ports|
  {
    seq(|ports|, i requires 0 <= i < |ports| => OnLayer(allPolys, ports[i].1))
  }

  lemma OnLayerSnoc(shapes: seq<Shape>, k: nat, spec: LayerSpec)
    requires k < |shapes|
    ensures OnLayer(shapes[..k + 1], spec) == OnLayer(shapes[..k], spec) + (if shapes[k].spec == spec then [shapes[k]] else [])
  {
    assert shapes[..k + 1][..k] == shapes[..k];
  }

  /** The nested loop that files every polygon under each port whose layer it is on. */
  method PortPolygons(ports: Dict<string, LayerSpec>, allPolys: seq<Shape>) returns (byPort: seq<seq<Shape>>)
    ensures byPort == PortShapes(ports, allPolys)
  {
    byPort := seq(|ports|, i => []);
    for k := 0 to |allPolys|
      invariant |byPort| == |ports|
      invariant forall i :: 0 <= i < |ports| ==> byPort[i] == OnLayer(allPolys[..k], ports[i].1)
    {
      byPort := FileShape(ports, allPolys, k, byPort);
    }
    assert allPolys[..|allPolys|] == allPolys;
  }

  /** The inner loop: polygon `k` joins the list of every port on its layer. */
  method FileShape(ports: Dict<string, LayerSpec>, allPolys: seq<Shape>, k: nat, byPort0: seq<seq<Shape>>)
    returns (byPort: seq<seq<Shape>>)
    requires k < |allPolys| && |byPort0| == |ports|
    requires forall i :: 0 <= i < |ports| ==> byPort0[i] == OnLayer(allPolys[..k], ports[i].1)
    ensures |byPort| == |ports|
    ensures forall i :: 0 <= i < |ports| ==> byPort[i] == OnLayer(allPolys[..k + 1], ports[i].1)
  {
    byPort := byPort0;
    for i := 0 to |ports|
      invariant |byPort| == |ports|
      invariant forall j :: 0 <= j < i ==> byPort[j] == OnLayer(allPolys[..k + 1], ports[j].1)
      invariant forall j :: i <= j < |ports| ==> byPort[j] == byPort0[j]
    {
      OnLayerSnoc(allPolys, k, ports[i].1);
      if allPolys[k].spec == ports[i].1 {
        byPort := byPort[i := byPort[i] + [allPolys[k]]];
      }
    }
  }

  /** The ports recorded on one net after the first ports have been examined. */
  function PortsOf(g: Geometry, netPolys: seq<Shape>, ports: Dict<string, LayerSpec>, byPort: seq<seq<Shape>>): set<string>
    requires |byPort| == |ports|
  {
    if ports == [] then {}
    else
      var n := |ports| - 1;
      PortsOf(g, netPolys, ports[..n], byPort[..n]) + (if AnyBelongs(g, byPort[n], netPolys) then {ports[n].0} else {})
  }

  /** A port is recorded on a net exactly when one of its polygons belongs to the net. */
  lemma {:induction false} PortsMeaning(g: Geometry, netPolys: seq<Shape>, ports: Dict<string, LayerSpec>,
                                        byPort: seq<seq<Shape>>, name: string)
    requires |byPort| == |ports|
    ensures name in PortsOf(g, netPolys, ports, byPort) <==>
      exists i :: 0 <= i < |ports| && ports[i].0 == name && AnyBelongs(g, byPort[i], netPolys)
  {
    if ports != [] {
      var n := |ports| - 1;
      PortsMeaning(g, netPolys, ports[..n], byPort[..n], name);
      assert forall i :: 0 <= i < n ==> ports[..n][i] == ports[i] && byPort[..n][i] == byPort[i];
    }
  }

  /** Lines 321-325 for one port: its polygons are tried in order and the scan stops at the first that belongs. */
  method TouchesNet(g: Geometry, polys: seq<Shape>, netPolys: seq<Shape>) returns (touch: bool)
    ensures touch == AnyBelongs(g, polys, netPolys)
  {
    touch := false;
    var k := 0;
    while k < |polys| && !touch
      invariant 0 <= k <= |polys|
      invariant touch == AnyBelongs(g, polys[..k], netPolys)
    {
      assert polys[..k + 1][..k] == polys[..k];
      touch := BelongsTo(g, polys[k], netPolys);
      k := k + 1;
    }
    if touch {
      var i :| 0 <= i < k && BelongsTo(g, polys[..k][i], netPolys);
      assert polys[..k][i] == polys[i];
    } else {
      assert polys[..k] == polys;
    }
  }

  /** The loop over the ports for one net. */
  method PortAttachments(g: Geometry, netPolys: seq<Shape>, ports: Dict<string, LayerSpec>, byPort: seq<seq<Shape>>)
    returns (names: set<string>)
    requires |byPort| == |ports|
    ensures names == PortsOf(g, netPolys, ports, byPort)
  {
    names := {};
    for i := 0 to |ports|
      invariant names == PortsOf(g, netPolys, ports[..i], byPort[..i])
    {
      assert ports[..i + 1][..i] == ports[..i] && byPort[..i + 1][..i] == byPort[..i];
      var touch := TouchesNet(g, byPort[i], netPolys);
      if touch {
        names := names + {ports[i].0};
      }
    }
    assert ports[..|ports|] == ports && byPort[..|byPort|] == byPort;
  }

  // ---------------------------------------------------------------------
  // The connections of every net.

  /** `{"transistors": ..., "ports": ...}` of one net. */
  datatype Connection = Connection(terminals: Terminals, ports: set<string>)

  function ConnectionOf(g: Geometry, net: Net, ts: seq<Transistor>, ports: Dict<string, LayerSpec>,
                        byPort: seq<seq<Shape>>): Connection
    requires |byPort| == |ports|
  {
    Connection(TerminalsOf(g, net.polygons, ts), PortsOf(g, net.polygons, ports, byPort))
  }

  /** The assignments `net_connections[net_id] = ...`, one per net, in net order. */
  function ConnectionEntries(g: Geometry, nets: seq<Net>, ts: seq<Transistor>, tech: Tech, allPolys: seq<Shape>)
    : (es: seq<(string, Connection)>)
    ensures |es| == |nets|
    ensures forall i :: 0 <= i < |nets| ==>
      es[i] == (nets[i].id, ConnectionOf(g, nets[i], ts, TechPorts(tech), PortShapes(TechPorts(tech), allPolys)))
  {
    var ports := TechPorts(tech);
    var byPort := PortShapes(ports, allPolys);
    seq(|nets|, i requires 0 <= i < |nets| => (nets[i].id, ConnectionOf(g, nets[i], ts, ports, byPort)))
  }

  /**
   * `find_net_object_connections`: the metal nets, in order, each with the
   * transistor parts and the ports touching it.
   */
  method FindNetObjectConnections(nets: seq<Net>, ts: seq<Transistor>, tech: Tech, allPolys: seq<Shape>, g: Geometry)
    returns (conns: Dict<string, Connection>)
    ensures conns == FromEntries(ConnectionEntries(g, nets, ts, tech, allPolys))
  {
    var ports := TechPorts(tech);
    var byPort := PortPolygons(ports, allPolys);
    ghost var es := ConnectionEntries(g, nets, ts, tech, allPolys);
    conns := [];
    for i := 0 to |nets|
      invariant conns == FromEntries(es[..i])
    {
      var terminals := TerminalAttachments(g, nets[i].polygons, ts);
      var names := PortAttachments(g, nets[i].polygons, ports, byPort);
      assert es[..i + 1][..i] == es[..i];
      conns := Put(conns, nets[i].id, Connection(terminals, names));
    }
    assert es[..|nets|] == es;
  }

  /**
   * With distinct net ids, as `find_connected_metal_nets` produces them,
   * the result lists every net once, in order, with its own connections.
   */
  lemma ConnectionsPerNet(g: Geometry, nets: seq<Net>, ts: seq<Transistor>, tech: Tech, allPolys: seq<Shape>)
    requires forall i, j :: 0 <= i < j < |nets| ==> nets[i].id != nets[j].id
    ensures var conns := FromEntries(ConnectionEntries(g, nets, ts, tech, allPolys));
      && |conns| == |nets|
      && forall i :: 0 <= i < |nets| ==>
           (conns[i].0 == nets[i].id &&
            conns[i].1 == ConnectionOf(g, nets[i], ts, TechPorts(tech), PortShapes(TechPorts(tech), allPolys)))
  {
    var es := ConnectionEntries(g, nets, ts, tech, allPolys);
    assert DistinctKeys(es);
    FromDistinctEntries(es);
  }
}
