/**
 * The layout as the extractor sees it. Geometry is given data: every polygon
 * arrives with its layer/datatype pair, its bounding box and its vertex count,
 * and the polygon intersection `gdstk.boolean([a], [b], "and")` is a function
 * supplied by the caller that either yields pieces or raises.
 */
module Layout {

  datatype Point = Point(x: real, y: real)

  /** `bounding_box()`: the lower-left and the upper-right corner. */
  datatype Box = Box(lo: Point, hi: Point)

  /** A GDS layer number and datatype number. */
  datatype LayerSpec = LayerSpec(layer: int, dtype: int)

  /** A polygon of the layout. */
  datatype Shape = Shape(spec: LayerSpec, box: Box, vertices: nat)

  /** `is_valid_polygon`: at least three two-dimensional points. */
  predicate IsValidPolygon(s: Shape)
  {
    s.vertices >= 3
  }

  /** What `gdstk.boolean([a], [b], "and")` returns, or that it raised. */
  datatype Region = Pieces(pieces: seq<Shape>) | Raised

  type Geometry = (Shape, Shape) -> Region

  /**
   * The extractor's overlap test: the intersection is a non-empty list. A
   * raised exception counts as no overlap, as every `except: continue` does.
   */
  predicate Overlap(g: Geometry, a: Shape, b: Shape)
  {
    g(a, b).Pieces? && g(a, b).pieces != []
  }

  datatype Cell = Cell(name: string, shapes: seq<Shape>)

  /** One entry of the technology file's `in` or `out` table. */
  datatype PortDecl = PortDecl(name: string, spec: LayerSpec)

  /** The technology file: the `ls` layers the extractor reads and the port tables. */
  datatype Tech = Tech(poly: LayerSpec, diff: LayerSpec, nwell: LayerSpec, contact: LayerSpec,
                       met1: LayerSpec, ins: seq<PortDecl>, outs: seq<PortDecl>)

  /** `[p for p in polygons if p.layer == L and p.datatype == D]`. */
  function OnLayer(shapes: seq<Shape>, spec: LayerSpec): (r: seq<Shape>)
    ensures forall s :: s in r <==> s in shapes && s.spec == spec
    ensures |r| <= |shapes|
  {
    if shapes == [] then []
    else
      var last := shapes[|shapes| - 1];
      assert shapes == shapes[..|shapes| - 1] + [last];
      OnLayer(shapes[..|shapes| - 1], spec) + (if last.spec == spec then [last] else [])
  }

  /** The same filter with `and is_valid_polygon(p)`, as for the device layers. */
  function UsableOn(shapes: seq<Shape>, spec: LayerSpec): (r: seq<Shape>)
    ensures forall s :: s in r <==> s in shapes && s.spec == spec && IsValidPolygon(s)
    ensures |r| <= |shapes|
  {
    if shapes == [] then []
    else
      var last := shapes[|shapes| - 1];
      assert shapes == shapes[..|shapes| - 1] + [last];
      UsableOn(shapes[..|shapes| - 1], spec) + (if last.spec == spec && IsValidPolygon(last) then [last] else [])
  }
}
