/**
 * Transistor recognition (`find_transistors_by_bounding_box`): every valid
 * crossing of a gate polygon with a diffusion polygon is a transistor; it is
 * a PMOS when its channel lies inside an nwell, and its contacts are split
 * into source and drain by their position across the diffusion.
 */
module Transistors {
  import opened Wrappers
  import opened Text
  import opened Sorting
  import opened Layout

  /** `(cell.name, poly, diff, channel)`: a crossing whose intersection is usable. */
  datatype Candidate = Candidate(cell: string, poly: Shape, diff: Shape, channel: seq<Shape>)

  /** The transistor record before it is given its id. */
  datatype Device = Device(cell: string, poly: Shape, diff: Shape, channel: seq<Shape>,
                           contacts: seq<Shape>, source: seq<Shape>, drain: seq<Shape>, inWell: bool)

  datatype Transistor = Transistor(id: string, dev: Device)

  predicate AllValid(s: seq<Shape>)
  {
    forall k :: 0 <= k < |s| ==> IsValidPolygon(s[k])
  }

  /** The channel of `poly` over `diff`, when the intersection is non-empty and every piece is valid. */
  function Channel(g: Geometry, poly: Shape, diff: Shape): Option<seq<Shape>>
  {
    var region := g(poly, diff);
    if region.Pieces? && region.pieces != [] && AllValid(region.pieces) then Some(region.pieces) else None
  }

  // ---------------------------------------------------------------------
  // Candidates: the double loop over gate and diffusion polygons.

  function CandidatesWith(cell: string, poly: Shape, diffs: seq<Shape>, g: Geometry): seq<Candidate>
  {
    if diffs == [] then []
    else
      var diff := diffs[|diffs| - 1];
      var ch := Channel(g, poly, diff);
      CandidatesWith(cell, poly, diffs[..|diffs| - 1], g) + (if ch.Some? then [Candidate(cell, poly, diff, ch.value)] else [])
  }

  /** The candidates in the loop's order: gate-major, then diffusion. */
  function Candidates(cell: string, polys: seq<Shape>, diffs: seq<Shape>, g: Geometry): seq<Candidate>
  {
    if polys == [] then []
    else Candidates(cell, polys[..|polys| - 1], diffs, g) + CandidatesWith(cell, polys[|polys| - 1], diffs, g)
  }

  lemma {:induction false} CandidatesWithMeaning(cell: string, poly: Shape, diffs: seq<Shape>, g: Geometry)
    ensures forall c :: c in CandidatesWith(cell, poly, diffs, g) <==>
      c.cell == cell && c.poly == poly && c.diff in diffs && Channel(g, poly, c.diff) == Some(c.channel)
  {
    if diffs != [] {
      CandidatesWithMeaning(cell, poly, diffs[..|diffs| - 1], g);
      assert diffs == diffs[..|diffs| - 1] + [diffs[|diffs| - 1]];
    }
  }

  /**
   * A candidate is recorded exactly for each gate polygon and diffusion
   * polygon whose intersection is a non-empty list of valid polygons, and its
   * channel is that intersection.
   */
  lemma {:induction false} CandidatesMeaning(cell: string, polys: seq<Shape>, diffs: seq<Shape>, g: Geometry)
    ensures forall c :: c in Candidates(cell, polys, diffs, g) <==>
      c.cell == cell && c.poly in polys && c.diff in diffs && Channel(g, c.poly, c.diff) == Some(c.channel)
  {
    if polys != [] {
      var poly := polys[|polys| - 1];
      CandidatesMeaning(cell, polys[..|polys| - 1], diffs, g);
      CandidatesWithMeaning(cell, poly, diffs, g);
      assert polys == polys[..|polys| - 1] + [poly];
    }
  }

  /** The two nested loops that build `transistor_candidates`. */
  method CollectCandidates(cell: string, polys: seq<Shape>, diffs: seq<Shape>, g: Geometry) returns (cands: seq<Candidate>)
    ensures cands == Candidates(cell, polys, diffs, g)
  {
    cands := [];
    for i := 0 to |polys|
      invariant cands == Candidates(cell, polys[..i], diffs, g)
    {
      assert polys[..i + 1][..i] == polys[..i];
      for j := 0 to |diffs|
        invariant cands == Candidates(cell, polys[..i], diffs, g) + CandidatesWith(cell, polys[i], diffs[..j], g)
      {
        assert diffs[..j + 1][..j] == diffs[..j];
        var region := g(polys[i], diffs[j]);
        if region.Pieces? && region.pieces != [] && AllValid(region.pieces) {
          cands := cands + [Candidate(cell, polys[i], diffs[j], region.pieces)];
        }
      }
      assert diffs[..|diffs|] == diffs;
    }
    assert polys[..|polys|] == polys;
  }

  // ---------------------------------------------------------------------
  // Polarity: the nwell test.

  /** The well test's four inclusive comparisons: `inner` lies within `outer`. */
  predicate Encloses(outer: Box, inner: Box)
  {
    && inner.lo.x >= outer.lo.x && inner.lo.y >= outer.lo.y
    && inner.hi.x <= outer.hi.x && inner.hi.y <= outer.hi.y
  }

  /** A channel box is in an nwell iff some nwell's box encloses it, edges included. */
  function InWell(ch: Box, wells: seq<Shape>): (r: bool)
    ensures r <==> exists k :: 0 <= k < |wells| && Encloses(wells[k].box, ch)
  {
    if wells == [] then false
    else
      assert forall k :: 1 <= k < |wells| ==> wells[k] == wells[1..][k - 1];
      Encloses(wells[0].box, ch) || InWell(ch, wells[1..])
  }

  /** The loop over `nwell_polys` that stops at the first enclosing well. */
  method WellTest(ch: Box, wells: seq<Shape>) returns (inWell: bool)
    ensures inWell == InWell(ch, wells)
  {
    inWell := false;
    var i := 0;
    while i < |wells|
      invariant 0 <= i <= |wells|
      invariant !inWell && (InWell(ch, wells) <==> InWell(ch, wells[i..]))
    {
      assert wells[i..][1..] == wells[i + 1..];
      if Encloses(wells[i].box, ch) {
        inWell := true;
        break;
      }
      i := i + 1;
    }
  }

  // ---------------------------------------------------------------------
  // Contacts and their split into source and drain.

  /** The contacts whose intersection with the diffusion is non-empty, in contact order. */
  function Touching(g: Geometry, diff: Shape, contacts: seq<Shape>): (r: seq<Shape>)
    ensures forall c :: c in r <==> c in contacts && Overlap(g, c, diff)
    ensures multiset(r) <= multiset(contacts)
  {
    if contacts == [] then []
    else
      var last := contacts[|contacts| - 1];
      assert contacts == contacts[..|contacts| - 1] + [last];
      Touching(g, diff, contacts[..|contacts| - 1]) + (if Overlap(g, last, diff) then [last] else [])
  }

  /** The loop that builds `contacts_in_diff`. */
  method ContactsInDiff(g: Geometry, diff: Shape, contacts: seq<Shape>) returns (found: seq<Shape>)
    ensures found == Touching(g, diff, contacts)
  {
    found := [];
    for i := 0 to |contacts|
      invariant found == Touching(g, diff, contacts[..i])
    {
      assert contacts[..i + 1][..i] == contacts[..i];
      var region := g(contacts[i], diff);
      if region.Pieces? && region.pieces != [] {
        found := found + [contacts[i]];
      }
    }
    assert contacts[..|contacts|] == contacts;
  }

  /** The horizontal midpoint of a contact's box. */
  function Mid(c: Shape): real
  {
    (c.box.lo.x + c.box.hi.x) / 2.0
  }

  predicate MidLe(a: Shape, b: Shape)
  {
    Mid(a) <= Mid(b)
  }

  /** `contacts_positions`: the contacts stably sorted by midpoint. */
  function ByMidpoint(cs: seq<Shape>): seq<Shape>
  {
    SortBy(cs, MidLe)
  }

  function LowT(diff: Box): real
  {
    diff.lo.x + (diff.hi.x - diff.lo.x) * 0.4
  }

  function HighT(diff: Box): real
  {
    diff.lo.x + (diff.hi.x - diff.lo.x) * 0.6
  }

  /** The elements of `cs` that satisfy `keep`, in order. */
  function Filter(cs: seq<Shape>, keep: Shape -> bool): (r: seq<Shape>)
    ensures forall c :: c in r <==> c in cs && keep(c)
    ensures multiset(r) <= multiset(cs)
  {
    if cs == [] then []
    else
      var last := cs[|cs| - 1];
      assert cs == cs[..|cs| - 1] + [last];
      Filter(cs[..|cs| - 1], keep) + (if keep(last) then [last] else [])
  }

  function LeftContacts(sorted: seq<Shape>, diff: Box): seq<Shape>
  {
    Filter(sorted, c => Mid(c) <= LowT(diff))
  }

  function RightContacts(sorted: seq<Shape>, diff: Box): seq<Shape>
  {
    Filter(sorted, c => Mid(c) >= HighT(diff))
  }

  function MiddleContacts(sorted: seq<Shape>, diff: Box): seq<Shape>
  {
    Filter(sorted, c => LowT(diff) < Mid(c) < HighT(diff))
  }

  /** The source/drain heuristic, in its order of priority. */
  function SourceDrain(inDiff: seq<Shape>, diff: Box): (seq<Shape>, seq<Shape>)
  {
    var sorted := ByMidpoint(inDiff);
    var left, right, middle := LeftContacts(sorted, diff), RightContacts(sorted, diff), MiddleContacts(sorted, diff);
    if |left| == 2 && |right| == 2 then (left, right)
    else if |inDiff| == 3 && |middle| == 1 then (left + right, middle)
    else
      var half := |sorted| / 2;
      (sorted[..half], sorted[half..])
  }

  /** Which side a contact of the diffusion lands on: both thresholds belong to the outer sides. */
  lemma ContactSides(inDiff: seq<Shape>, diff: Box, c: Shape)
    requires c in inDiff
    ensures c in LeftContacts(ByMidpoint(inDiff), diff) <==> Mid(c) <= LowT(diff)
    ensures c in RightContacts(ByMidpoint(inDiff), diff) <==> Mid(c) >= HighT(diff)
    ensures c in MiddleContacts(ByMidpoint(inDiff), diff) <==> LowT(diff) < Mid(c) < HighT(diff)
  {
    assert multiset(inDiff)[c] > 0;
    assert c in multiset(ByMidpoint(inDiff));
  }

  lemma {:induction false} FilterPartition(cs: seq<Shape>, a: Shape -> bool, b: Shape -> bool, m: Shape -> bool)
    requires forall c :: c in cs ==> (a(c) && !b(c) && !m(c)) || (!a(c) && b(c) && !m(c)) || (!a(c) && !b(c) && m(c))
    ensures multiset(Filter(cs, a)) + multiset(Filter(cs, m)) + multiset(Filter(cs, b)) == multiset(cs)
  {
    if cs != [] {
      var init := cs[..|cs| - 1];
      assert cs == init + [cs[|cs| - 1]];
      FilterPartition(init, a, b, m);
    }
  }

  /** On a diffusion of positive width the three sides partition the contacts. */
  lemma SidesPartition(inDiff: seq<Shape>, diff: Box)
    requires diff.hi.x - diff.lo.x > 0.0
    ensures multiset(LeftContacts(ByMidpoint(inDiff), diff)) + multiset(MiddleContacts(ByMidpoint(inDiff), diff))
      + multiset(RightContacts(ByMidpoint(inDiff), diff)) == multiset(inDiff)
  {
    var sorted := ByMidpoint(inDiff);
    assert LowT(diff) < HighT(diff);
    FilterPartition(sorted, c => Mid(c) <= LowT(diff), c => Mid(c) >= HighT(diff), c => LowT(diff) < Mid(c) < HighT(diff));
  }

  lemma MidLePreorder(s: seq<Shape>)
    ensures TotalPreorderOn(MidLe, s)
  {
  }

  /** When neither preferred rule applies, the split is the fallback cut at `len // 2`. */
  lemma FallbackIsCut(inDiff: seq<Shape>, diff: Box)
    requires !(|LeftContacts(ByMidpoint(inDiff), diff)| == 2 && |RightContacts(ByMidpoint(inDiff), diff)| == 2)
    requires !(|inDiff| == 3 && |MiddleContacts(ByMidpoint(inDiff), diff)| == 1)
    ensures SourceDrain(inDiff, diff) == (ByMidpoint(inDiff)[..|inDiff| / 2], ByMidpoint(inDiff)[|inDiff| / 2..])
  {
  }

  /**
   * The fallback split: the contacts in midpoint order, cut at `len // 2`, so
   * the drain takes the extra contact of an odd count and every source
   * contact lies left of (or level with) every drain contact.
   */
  lemma FallbackSplit(inDiff: seq<Shape>, diff: Box)
    requires !(|LeftContacts(ByMidpoint(inDiff), diff)| == 2 && |RightContacts(ByMidpoint(inDiff), diff)| == 2)
    requires !(|inDiff| == 3 && |MiddleContacts(ByMidpoint(inDiff), diff)| == 1)
    ensures SourceDrain(inDiff, diff).0 + SourceDrain(inDiff, diff).1 == ByMidpoint(inDiff)
    ensures |SourceDrain(inDiff, diff).1| == |SourceDrain(inDiff, diff).0| + |inDiff| % 2
    ensures forall s, d :: s in SourceDrain(inDiff, diff).0 && d in SourceDrain(inDiff, diff).1 ==> Mid(s) <= Mid(d)
  {
    var sorted := ByMidpoint(inDiff);
    var half := |inDiff| / 2;
    FallbackIsCut(inDiff, diff);
    assert sorted[..half] + sorted[half..] == sorted;
    CutOrdered(inDiff, half);
  }

  lemma CutOrdered(inDiff: seq<Shape>, half: nat)
    requires half <= |inDiff|
    ensures forall s, d :: s in ByMidpoint(inDiff)[..half] && d in ByMidpoint(inDiff)[half..] ==> Mid(s) <= Mid(d)
  {
    var sorted := ByMidpoint(inDiff);
    MidLePreorder(inDiff);
    SortBySorted(inDiff, MidLe);
    forall s, d | s in sorted[..half] && d in sorted[half..] ensures Mid(s) <= Mid(d) {
      var i :| 0 <= i < half && sorted[i] == s;
      var j :| half <= j < |sorted| && sorted[j] == d;
      assert MidLe(sorted[i], sorted[j]);
    }
  }

  /**
   * The first two rules, stated on the contacts as found: when exactly two
   * contacts lie at or left of the 40% threshold and exactly two at or right
   * of the 60% threshold, the source is the first two and the drain the
   * second two, each in midpoint order; otherwise, with three contacts of
   * which exactly one lies strictly between the thresholds, that one is the
   * drain and the other two are the source.
   */
  lemma PreferredSplits(inDiff: seq<Shape>, diff: Box)
    ensures |LeftContacts(inDiff, diff)| == 2 && |RightContacts(inDiff, diff)| == 2 ==>
      && multiset(SourceDrain(inDiff, diff).0) == multiset(LeftContacts(inDiff, diff))
      && multiset(SourceDrain(inDiff, diff).1) == multiset(RightContacts(inDiff, diff))
      && SortedBy(SourceDrain(inDiff, diff).0, MidLe) && SortedBy(SourceDrain(inDiff, diff).1, MidLe)
    ensures (!(|LeftContacts(inDiff, diff)| == 2 && |RightContacts(inDiff, diff)| == 2) &&
             |inDiff| == 3 && |MiddleContacts(inDiff, diff)| == 1) ==>
      && multiset(SourceDrain(inDiff, diff).0) == multiset(LeftContacts(inDiff, diff)) + multiset(RightContacts(inDiff, diff))
      && multiset(SourceDrain(inDiff, diff).1) == multiset(MiddleContacts(inDiff, diff))
  {
    var sorted := ByMidpoint(inDiff);
    SidesPermute(inDiff, sorted, diff);
    MidLePreorder(inDiff);
    SortBySorted(inDiff, MidLe);
    SidesSorted(sorted, diff);
  }

  /** Reordering the contacts does not change what each side holds. */
  lemma SidesPermute(a: seq<Shape>, b: seq<Shape>, diff: Box)
    requires multiset(a) == multiset(b)
    ensures multiset(LeftContacts(a, diff)) == multiset(LeftContacts(b, diff))
    ensures multiset(RightContacts(a, diff)) == multiset(RightContacts(b, diff))
    ensures multiset(MiddleContacts(a, diff)) == multiset(MiddleContacts(b, diff))
    ensures |LeftContacts(a, diff)| == |LeftContacts(b, diff)| && |RightContacts(a, diff)| == |RightContacts(b, diff)|
    ensures |MiddleContacts(a, diff)| == |MiddleContacts(b, diff)|
  {
    FilterPermutes(a, b, c => Mid(c) <= LowT(diff));
    FilterPermutes(a, b, c => Mid(c) >= HighT(diff));
    FilterPermutes(a, b, c => LowT(diff) < Mid(c) < HighT(diff));
    assert |multiset(LeftContacts(a, diff))| == |multiset(LeftContacts(b, diff))|;
    assert |multiset(RightContacts(a, diff))| == |multiset(RightContacts(b, diff))|;
    assert |multiset(MiddleContacts(a, diff))| == |multiset(MiddleContacts(b, diff))|;
  }

  /** The sides of midpoint-sorted contacts are midpoint-sorted. */
  lemma SidesSorted(sorted: seq<Shape>, diff: Box)
    requires SortedBy(sorted, MidLe)
    ensures SortedBy(LeftContacts(sorted, diff), MidLe) && SortedBy(RightContacts(sorted, diff), MidLe)
  {
    FilterSorted(sorted, c => Mid(c) <= LowT(diff));
    FilterSorted(sorted, c => Mid(c) >= HighT(diff));
  }

  lemma {:induction false} FilterCount(cs: seq<Shape>, keep: Shape -> bool, c: Shape)
    ensures multiset(Filter(cs, keep))[c] == if keep(c) then multiset(cs)[c] else 0
  {
    if cs != [] {
      var init := cs[..|cs| - 1];
      assert cs == init + [cs[|cs| - 1]];
      FilterCount(init, keep, c);
    }
  }

  lemma FilterPermutes(a: seq<Shape>, b: seq<Shape>, keep: Shape -> bool)
    requires multiset(a) == multiset(b)
    ensures multiset(Filter(a, keep)) == multiset(Filter(b, keep))
  {
    forall c ensures multiset(Filter(a, keep))[c] == multiset(Filter(b, keep))[c] {
      FilterCount(a, keep, c);
      FilterCount(b, keep, c);
    }
  }

  lemma {:induction false} FilterSorted(cs: seq<Shape>, keep: Shape -> bool)
    requires SortedBy(cs, MidLe)
    ensures SortedBy(Filter(cs, keep), MidLe)
  {
    if cs != [] {
      var n := |cs| - 1;
      var init, last := cs[..n], cs[n];
      FilterSorted(init, keep);
      var r0 := Filter(init, keep);
      var r := Filter(cs, keep);
      assert r == r0 + (if keep(last) then [last] else []);
      forall i, j | 0 <= i < j < |r| ensures MidLe(r[i], r[j]) {
        if j >= |r0| {
          assert r[i] in init;
          var k :| 0 <= k < n && init[k] == r[i];
          assert MidLe(cs[k], cs[n]);
        }
      }
    }
  }

  /**
   * On a diffusion of positive width, source and drain are disjoint and drawn
   * from the diffusion's contacts; when the first rule does not apply they
   * use every contact.
   */
  lemma SourceDrainDisjoint(inDiff: seq<Shape>, diff: Box)
    requires diff.hi.x - diff.lo.x > 0.0
    ensures multiset(SourceDrain(inDiff, diff).0) + multiset(SourceDrain(inDiff, diff).1) <= multiset(inDiff)
    ensures var sorted := ByMidpoint(inDiff);
      !(|LeftContacts(sorted, diff)| == 2 && |RightContacts(sorted, diff)| == 2) ==>
        multiset(SourceDrain(inDiff, diff).0) + multiset(SourceDrain(inDiff, diff).1) == multiset(inDiff)
  {
    var sorted := ByMidpoint(inDiff);
    var left, right, middle := LeftContacts(sorted, diff), RightContacts(sorted, diff), MiddleContacts(sorted, diff);
    SidesPartition(inDiff, diff);
    PreferredSplits(inDiff, diff);
    if |left| == 2 && |right| == 2 {
    } else if |inDiff| == 3 && |middle| == 1 {
      assert multiset(left + right) == multiset(left) + multiset(right);
    } else {
      FallbackIsCut(inDiff, diff);
      CutMultiset(sorted, |sorted| / 2);
    }
  }

  lemma CutMultiset<T>(s: seq<T>, n: nat)
    requires n <= |s|
    ensures multiset(s[..n]) + multiset(s[n..]) == multiset(s)
  {
    assert s[..n] + s[n..] == s;
  }

  // ---------------------------------------------------------------------
  // One candidate, one cell, the whole library.

  /** The transistor record built for one candidate. */
  function Analyse(cand: Candidate, wells: seq<Shape>, contacts: seq<Shape>, g: Geometry): Device
    requires cand.channel != []
  {
    var inDiff := Touching(g, cand.diff, contacts);
    var sd := SourceDrain(inDiff, cand.diff.box);
    Device(cand.cell, cand.poly, cand.diff, cand.channel, inDiff, sd.0, sd.1, InWell(cand.channel[0].box, wells))
  }

  method AnalyseCandidate(cand: Candidate, wells: seq<Shape>, contacts: seq<Shape>, g: Geometry) returns (d: Device)
    requires cand.channel != []
    ensures d == Analyse(cand, wells, contacts, g)
  {
    var inWell := WellTest(cand.channel[0].box, wells);
    var inDiff := ContactsInDiff(g, cand.diff, contacts);
    var sd := SourceDrain(inDiff, cand.diff.box);
    d := Device(cand.cell, cand.poly, cand.diff, cand.channel, inDiff, sd.0, sd.1, inWell);
  }

  predicate Channelled(cands: seq<Candidate>)
  {
    forall k :: 0 <= k < |cands| ==> cands[k].channel != []
  }

  lemma {:induction false} CandidatesChannelled(cell: string, polys: seq<Shape>, diffs: seq<Shape>, g: Geometry)
    ensures Channelled(Candidates(cell, polys, diffs, g))
  {
    if polys != [] {
      CandidatesChannelled(cell, polys[..|polys| - 1], diffs, g);
      CandidatesWithMeaning(cell, polys[|polys| - 1], diffs, g);
    }
  }

  function AnalyseAll(cands: seq<Candidate>, wells: seq<Shape>, contacts: seq<Shape>, g: Geometry): (r: seq<Device>)
    requires Channelled(cands)
    ensures |r| == |cands|
  {
    if cands == [] then []
    else AnalyseAll(cands[..|cands| - 1], wells, contacts, g) + [Analyse(cands[|cands| - 1], wells, contacts, g)]
  }

  /** The devices of one cell, in discovery order; a cell without gate or diffusion polygons has none. */
  function CellDevices(cell: Cell, tech: Tech, g: Geometry): seq<Device>
  {
    var polys := UsableOn(cell.shapes, tech.poly);
    var diffs := UsableOn(cell.shapes, tech.diff);
    if polys == [] || diffs == [] then []
    else
      CandidatesChannelled(cell.name, polys, diffs, g);
      AnalyseAll(Candidates(cell.name, polys, diffs, g), UsableOn(cell.shapes, tech.nwell),
                 UsableOn(cell.shapes, tech.contact), g)
  }

  function AllDevices(cells: seq<Cell>, tech: Tech, g: Geometry): seq<Device>
  {
    if cells == [] then []
    else AllDevices(cells[..|cells| - 1], tech, g) + CellDevices(cells[|cells| - 1], tech, g)
  }

  // ---------------------------------------------------------------------
  // Ids.

  /**
   * The devices of one polarity, in discovery order, the k-th of them
   * (counting from 1) named `prefix` followed by k.
   */
  function Numbered(ds: seq<Device>, well: bool, prefix: string): seq<Transistor>
  {
    if ds == [] then []
    else
      var d := ds[|ds| - 1];
      var rest := Numbered(ds[..|ds| - 1], well, prefix);
      if d.inWell == well then rest + [Transistor(Label(prefix, |rest| + 1), d)] else rest
  }

  /** The k-th record is named `prefix` followed by k, has the asked polarity and is one of the devices. */
  lemma {:induction false} NumberedMeaning(ds: seq<Device>, well: bool, prefix: string)
    ensures |Numbered(ds, well, prefix)| <= |ds|
    ensures forall k :: 0 <= k < |Numbered(ds, well, prefix)| ==>
      Numbered(ds, well, prefix)[k].id == Label(prefix, k + 1) && Numbered(ds, well, prefix)[k].dev.inWell == well &&
      Numbered(ds, well, prefix)[k].dev in ds
  {
    if ds != [] {
      NumberedMeaning(ds[..|ds| - 1], well, prefix);
      assert forall x :: x in ds[..|ds| - 1] ==> x in ds;
    }
  }

  /** `[d for d in ds if d.inWell == well]`: the devices of one polarity, in discovery order. */
  function OfPolarity(ds: seq<Device>, well: bool): seq<Device>
  {
    if ds == [] then []
    else (if ds[0].inWell == well then [ds[0]] else []) + OfPolarity(ds[1..], well)
  }

  lemma {:induction false} OfPolaritySnoc(ds: seq<Device>, d: Device, well: bool)
    ensures OfPolarity(ds + [d], well) == OfPolarity(ds, well) + (if d.inWell == well then [d] else [])
  {
    if ds == [] {
      assert ds + [d] == [d];
      assert OfPolarity([d], well) == (if d.inWell == well then [d] else []) + OfPolarity([], well);
    } else {
      assert (ds + [d])[0] == ds[0];
      assert (ds + [d])[1..] == ds[1..] + [d];
      OfPolaritySnoc(ds[1..], d, well);
    }
  }

  /**
   * The numbered list holds the devices of its polarity in discovery order:
   * the record named `prefix` k carries the k-th such device.
   */
  lemma {:induction false} NumberedInOrder(ds: seq<Device>, well: bool, prefix: string)
    ensures Devs(Numbered(ds, well, prefix)) == OfPolarity(ds, well)
  {
    if ds != [] {
      var init, d := ds[..|ds| - 1], ds[|ds| - 1];
      assert ds == init + [d];
      NumberedInOrder(init, well, prefix);
      NumberedStep(init, d, well, prefix);
      OfPolaritySnoc(init, d, well);
      var n := Numbered(init, well, prefix);
      if d.inWell == well {
        DevsSnoc(n, Transistor(Label(prefix, |n| + 1), d));
      }
    }
  }

  function Devs(ts: seq<Transistor>): (r: seq<Device>)
    ensures |r| == |ts| && forall k :: 0 <= k < |ts| ==> r[k] == ts[k].dev
  {
    seq(|ts|, k requires 0 <= k < |ts| => ts[k].dev)
  }

  /** Every device is numbered exactly once: in the NMOS list or in the PMOS list. */
  lemma {:induction false} NumberedSplit(ds: seq<Device>, p: string, q: string)
    ensures multiset(Devs(Numbered(ds, false, p))) + multiset(Devs(Numbered(ds, true, q))) == multiset(ds)
  {
    if ds != [] {
      var init := ds[..|ds| - 1];
      var d := ds[|ds| - 1];
      NumberedSplit(init, p, q);
      assert ds == init + [d];
      NumberedStep(init, d, false, p);
      NumberedStep(init, d, true, q);
      var n0, p0 := Numbered(init, false, p), Numbered(init, true, q);
      if d.inWell {
        DevsSnoc(p0, Transistor(Label(q, |p0| + 1), d));
      } else {
        DevsSnoc(n0, Transistor(Label(p, |n0| + 1), d));
      }
    }
  }

  lemma DevsSnoc(ts: seq<Transistor>, t: Transistor)
    ensures Devs(ts + [t]) == Devs(ts) + [t.dev]
  {
  }

  /** No two transistors of the list share an id. */
  predicate DistinctIds(ts: seq<Transistor>)
  {
    forall a, b :: 0 <= a < b < |ts| ==> ts[a].id != ts[b].id
  }

  /** No two transistors of the extraction share an id, within or across polarities. */
  lemma IdsUnique(ds: seq<Device>)
    ensures DistinctIds(Numbered(ds, false, "NMOS_") + Numbered(ds, true, "PMOS_"))
  {
    var n, p := Numbered(ds, false, "NMOS_"), Numbered(ds, true, "PMOS_");
    NumberedMeaning(ds, false, "NMOS_");
    NumberedMeaning(ds, true, "PMOS_");
    var all := n + p;
    forall i, j | 0 <= i < j < |all| ensures all[i].id != all[j].id {
      if j < |n| {
        if all[i].id == all[j].id {
          LabelInjective("NMOS_", i + 1, j + 1);
        }
      } else if i >= |n| {
        if all[i].id == all[j].id {
          LabelInjective("PMOS_", i - |n| + 1, j - |n| + 1);
        }
      } else {
        assert all[i].id[0] == 'N' && all[j].id[0] == 'P';
      }
    }
  }

  /** `find_transistors_by_bounding_box`: the two lists and their id counters. */
  method FindTransistors(cells: seq<Cell>, tech: Tech, g: Geometry) returns (nmos: seq<Transistor>, pmos: seq<Transistor>)
    ensures nmos == Numbered(AllDevices(cells, tech, g), false, "NMOS_")
    ensures pmos == Numbered(AllDevices(cells, tech, g), true, "PMOS_")
  {
    nmos, pmos := [], [];
    var nmosId, pmosId := 1, 1;
    ghost var seen: seq<Device> := [];
    for c := 0 to |cells|
      invariant seen == AllDevices(cells[..c], tech, g)
      invariant nmos == Numbered(seen, false, "NMOS_") && nmosId == |nmos| + 1
      invariant pmos == Numbered(seen, true, "PMOS_") && pmosId == |pmos| + 1
    {
      assert cells[..c + 1][..c] == cells[..c];
      nmos, pmos, nmosId, pmosId := ExtractCell(cells[c], tech, g, nmos, pmos, nmosId, pmosId, seen);
      seen := seen + CellDevices(cells[c], tech, g);
    }
    assert cells[..|cells|] == cells;
  }

  /** The body of the loop over `library.cells`: one cell's transistors join the two lists. */
  method ExtractCell(cell: Cell, tech: Tech, g: Geometry, nmos0: seq<Transistor>, pmos0: seq<Transistor>,
                     nmosId0: int, pmosId0: int, ghost seen: seq<Device>)
    returns (nmos: seq<Transistor>, pmos: seq<Transistor>, nmosId: int, pmosId: int)
    requires nmos0 == Numbered(seen, false, "NMOS_") && nmosId0 == |nmos0| + 1
    requires pmos0 == Numbered(seen, true, "PMOS_") && pmosId0 == |pmos0| + 1
    ensures nmos == Numbered(seen + CellDevices(cell, tech, g), false, "NMOS_") && nmosId == |nmos| + 1
    ensures pmos == Numbered(seen + CellDevices(cell, tech, g), true, "PMOS_") && pmosId == |pmos| + 1
  {
    var polys := UsableOn(cell.shapes, tech.poly);
    var diffs := UsableOn(cell.shapes, tech.diff);
    if polys == [] || diffs == [] {
      assert seen + CellDevices(cell, tech, g) == seen;
      return nmos0, pmos0, nmosId0, pmosId0;
    }
    var wells := UsableOn(cell.shapes, tech.nwell);
    var contacts := UsableOn(cell.shapes, tech.contact);
    var cands := CollectCandidates(cell.name, polys, diffs, g);
    CandidatesChannelled(cell.name, polys, diffs, g);
    assert CellDevices(cell, tech, g) == AnalyseAll(cands, wells, contacts, g);
    nmos, pmos, nmosId, pmosId := NumberCandidates(cands, wells, contacts, g, nmos0, pmos0, nmosId0, pmosId0, seen);
  }

  /** The loop over `transistor_candidates`: analyse each and append it to its polarity's list under the next id. */
  method NumberCandidates(cands: seq<Candidate>, wells: seq<Shape>, contacts: seq<Shape>, g: Geometry,
                          nmos0: seq<Transistor>, pmos0: seq<Transistor>, nmosId0: int, pmosId0: int, ghost seen: seq<Device>)
    returns (nmos: seq<Transistor>, pmos: seq<Transistor>, nmosId: int, pmosId: int)
    requires Channelled(cands)
    requires nmos0 == Numbered(seen, false, "NMOS_") && nmosId0 == |nmos0| + 1
    requires pmos0 == Numbered(seen, true, "PMOS_") && pmosId0 == |pmos0| + 1
    ensures nmos == Numbered(seen + AnalyseAll(cands, wells, contacts, g), false, "NMOS_") && nmosId == |nmos| + 1
    ensures pmos == Numbered(seen + AnalyseAll(cands, wells, contacts, g), true, "PMOS_") && pmosId == |pmos| + 1
  {
    nmos, pmos, nmosId, pmosId := nmos0, pmos0, nmosId0, pmosId0;
    ghost var cur := seen;
    for k := 0 to |cands|
      invariant Channelled(cands[..k]) && cur == seen + AnalyseAll(cands[..k], wells, contacts, g)
      invariant nmos == Numbered(cur, false, "NMOS_") && nmosId == |nmos| + 1
      invariant pmos == Numbered(cur, true, "PMOS_") && pmosId == |pmos| + 1
    {
      var d := AnalyseCandidate(cands[k], wells, contacts, g);
      nmos, pmos, nmosId, pmosId := File(d, nmos, pmos, nmosId, pmosId, cur);
      ChannelledPrefix(cands, k + 1);
      AnalyseAllStep(seen, cands, k, wells, contacts, g);
      cur := cur + [d];
    }
    assert cands[..|cands|] == cands;
  }

  /** The `if is_in_nwell` branch: the record gets the next id of its polarity. */
  method File(d: Device, nmos0: seq<Transistor>, pmos0: seq<Transistor>, nmosId0: int, pmosId0: int, ghost seen: seq<Device>)
    returns (nmos: seq<Transistor>, pmos: seq<Transistor>, nmosId: int, pmosId: int)
    requires nmos0 == Numbered(seen, false, "NMOS_") && nmosId0 == |nmos0| + 1
    requires pmos0 == Numbered(seen, true, "PMOS_") && pmosId0 == |pmos0| + 1
    ensures nmos == Numbered(seen + [d], false, "NMOS_") && nmosId == |nmos| + 1
    ensures pmos == Numbered(seen + [d], true, "PMOS_") && pmosId == |pmos| + 1
  {
    NumberedStep(seen, d, false, "NMOS_");
    NumberedStep(seen, d, true, "PMOS_");
    nmos, pmos, nmosId, pmosId := nmos0, pmos0, nmosId0, pmosId0;
    if d.inWell {
      pmos := pmos + [Transistor(Label("PMOS_", pmosId), d)];
      pmosId := pmosId + 1;
    } else {
      nmos := nmos + [Transistor(Label("NMOS_", nmosId), d)];
      nmosId := nmosId + 1;
    }
  }

  lemma ChannelledPrefix(cands: seq<Candidate>, k: nat)
    requires Channelled(cands) && k <= |cands|
    ensures Channelled(cands[..k])
  {
  }

  lemma AnalyseAllStep(seen: seq<Device>, cands: seq<Candidate>, k: nat, wells: seq<Shape>, contacts: seq<Shape>, g: Geometry)
    requires k < |cands| && Channelled(cands[..k]) && Channelled(cands[..k + 1])
    ensures seen + AnalyseAll(cands[..k + 1], wells, contacts, g) ==
      (seen + AnalyseAll(cands[..k], wells, contacts, g)) + [Analyse(cands[k], wells, contacts, g)]
  {
    assert cands[..k + 1][..k] == cands[..k];
  }

  lemma NumberedStep(ds: seq<Device>, d: Device, well: bool, prefix: string)
    ensures Numbered(ds + [d], well, prefix) == Numbered(ds, well, prefix) +
      (if d.inWell == well then [Transistor(Label(prefix, |Numbered(ds, well, prefix)| + 1), d)] else [])
  {
    assert (ds + [d])[..|ds|] == ds;
  }
}
