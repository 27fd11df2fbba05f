/**
 * Pair classification (`find_transistor_pairs`): two transistors of the same
 * polarity whose source contacts or drain contacts touch form a pair; the
 * number of distinct contact midpoints of the two decides whether the pair is
 * in series (two) or in parallel (three).
 */
module Pairs {
  import opened Text
  import opened Layout
  import opened Transistors

  /** The rectangle test of `contacts_overlap`: boxes that share only an edge or a corner touch. */
  predicate Touch(a: Box, b: Box)
  {
    !(a.hi.x < b.lo.x || a.lo.x > b.hi.x || a.hi.y < b.lo.y || a.lo.y > b.hi.y)
  }

  /** The inner loop of `contacts_overlap`: some box of `l2` touches `c`. */
  function TouchesAny(c: Shape, l2: seq<Shape>): (r: bool)
    ensures r <==> exists j :: 0 <= j < |l2| && Touch(c.box, l2[j].box)
  {
    if l2 == [] then false
    else
      assert forall j :: 1 <= j < |l2| ==> l2[j] == l2[1..][j - 1];
      Touch(c.box, l2[0].box) || TouchesAny(c, l2[1..])
  }

  /** `contacts_overlap(l1, l2)`: some box of `l1` touches some box of `l2`. */
  function ContactsOverlap(l1: seq<Shape>, l2: seq<Shape>): (r: bool)
    ensures r <==> exists i, j :: 0 <= i < |l1| && 0 <= j < |l2| && Touch(l1[i].box, l2[j].box)
  {
    if l1 == [] then false
    else
      assert forall i :: 1 <= i < |l1| ==> l1[i] == l1[1..][i - 1];
      TouchesAny(l1[0], l2) || ContactsOverlap(l1[1..], l2)
  }

  /** The test does not depend on the order of its arguments. */
  lemma ContactsOverlapSymmetric(l1: seq<Shape>, l2: seq<Shape>)
    ensures ContactsOverlap(l1, l2) == ContactsOverlap(l2, l1)
  {
    if ContactsOverlap(l1, l2) {
      var i, j :| 0 <= i < |l1| && 0 <= j < |l2| && Touch(l1[i].box, l2[j].box);
      assert Touch(l2[j].box, l1[i].box);
    }
    if ContactsOverlap(l2, l1) {
      var j, i :| 0 <= j < |l2| && 0 <= i < |l1| && Touch(l2[j].box, l1[i].box);
      assert Touch(l1[i].box, l2[j].box);
    }
  }

  /** Two transistors are examined further when their sources touch or their drains touch. */
  predicate Linked(t1: Transistor, t2: Transistor)
  {
    ContactsOverlap(t1.dev.source, t2.dev.source) || ContactsOverlap(t1.dev.drain, t2.dev.drain)
  }

  /** The number of distinct midpoints among the contacts of both transistors. */
  function Spread(t1: Transistor, t2: Transistor): nat
  {
    |set c | c in t1.dev.contacts + t2.dev.contacts :: Mid(c)|
  }

  /** `tuple(sorted([id1, id2]))`. */
  function Key(a: string, b: string): (string, string)
  {
    if StrLe(a, b) then (a, b) else (b, a)
  }

  lemma KeyOfSame(a: string, b: string, c: string, d: string)
    requires Key(a, b) == Key(c, d)
    ensures (a == c && b == d) || (a == d && b == c)
  {
  }

  /** A recorded pair: its id, and the two transistors in list order. */
  datatype Pair = Pair(id: string, first: Transistor, second: Transistor)

  function KeyOf(p: Pair): (string, string)
  {
    Key(p.first.id, p.second.id)
  }

  /** The loop state: the two result lists and `used_pairs`; the id counters are one past the lengths. */
  datatype Scan = Scan(parallel: seq<Pair>, series: seq<Pair>, used: set<(string, string)>)

  /** One examined pair `t1` (earlier) and `t2` (later). */
  function Step(st: Scan, t1: Transistor, t2: Transistor, prefix: string): Scan
  {
    if !Linked(t1, t2) then st
    else
      var key := Key(t1.id, t2.id);
      if key in st.used then st
      else
        var n := Spread(t1, t2);
        var marked := st.(used := st.used + {key});
        if n == 2 then marked.(series := st.series + [Pair(Label(prefix + "SERIES_PAIR_", |st.series| + 1), t1, t2)])
        else if n == 3 then marked.(parallel := st.parallel + [Pair(Label(prefix + "PARALLEL_PAIR_", |st.parallel| + 1), t1, t2)])
        else marked
  }

  /** Iteration `(i, j)` of the double loop: indices `j <= i` are skipped. */
  function Visit(st: Scan, ts: seq<Transistor>, prefix: string, i: nat, j: nat): Scan
    requires i < |ts| && j < |ts|
  {
    if j <= i then st else Step(st, ts[i], ts[j], prefix)
  }

  /** The state before iteration `(i, j)`: every iteration before it, row by row, has run. */
  function Fold(ts: seq<Transistor>, prefix: string, i: nat, j: nat): Scan
    requires i < |ts| && j <= |ts|
    decreases i, j
  {
    if j == 0 then (if i == 0 then Scan([], [], {}) else Fold(ts, prefix, i - 1, |ts|))
    else Visit(Fold(ts, prefix, i, j - 1), ts, prefix, i, j - 1)
  }

  /** `find_pairs_for_type`: the state after the whole double loop. */
  function PairsOf(ts: seq<Transistor>, prefix: string): Scan
  {
    if ts == [] then Scan([], [], {}) else Fold(ts, prefix, |ts| - 1, |ts|)
  }

  /** Iteration `(a, b)` runs before iteration `(i, j)`. */
  predicate Before(a: nat, b: nat, i: nat, j: nat)
  {
    a < i || (a == i && b < j)
  }

  // ---------------------------------------------------------------------
  // What the loop keeps true.

  predicate SequentialIds(st: Scan, prefix: string)
  {
    && (forall k :: 0 <= k < |st.series| ==> st.series[k].id == Label(prefix + "SERIES_PAIR_", k + 1))
    && (forall k :: 0 <= k < |st.parallel| ==> st.parallel[k].id == Label(prefix + "PARALLEL_PAIR_", k + 1))
  }

  /** The pair of `ts[a]` and `ts[b]` for some `a < b`, linked, with `n` distinct midpoints. */
  ghost predicate FromList(p: Pair, ts: seq<Transistor>, n: nat)
  {
    exists a, b :: 0 <= a < b < |ts| && p.first == ts[a] && p.second == ts[b] && Linked(ts[a], ts[b]) && Spread(ts[a], ts[b]) == n
  }

  ghost predicate Sound(st: Scan, ts: seq<Transistor>)
  {
    && (forall k :: 0 <= k < |st.series| ==> FromList(st.series[k], ts, 2))
    && (forall k :: 0 <= k < |st.parallel| ==> FromList(st.parallel[k], ts, 3))
  }

  /** The pairs of `ps` have pairwise different sorted id pairs, all of them in `used`. */
  predicate KeysFresh(ps: seq<Pair>, used: set<(string, string)>)
  {
    && (forall k1, k2 :: 0 <= k1 < k2 < |ps| ==> KeyOf(ps[k1]) != KeyOf(ps[k2]))
    && (forall k :: 0 <= k < |ps| ==> KeyOf(ps[k]) in used)
  }

  /** No sorted id pair is recorded twice, in one list or across the two. */
  predicate OncePerKey(st: Scan)
  {
    && KeysFresh(st.series, st.used)
    && KeysFresh(st.parallel, st.used)
    && (forall k1, k2 :: 0 <= k1 < |st.parallel| && 0 <= k2 < |st.series| ==> KeyOf(st.parallel[k1]) != KeyOf(st.series[k2]))
  }

  /** The keys of the linked pairs examined before iteration `(i, j)`. */
  function UsedBefore(ts: seq<Transistor>, i: nat, j: nat): set<(string, string)>
  {
    set a, b | 0 <= a < b < |ts| && Before(a, b, i, j) && Linked(ts[a], ts[b]) :: Key(ts[a].id, ts[b].id)
  }

  lemma StepSequentialIds(st: Scan, t1: Transistor, t2: Transistor, prefix: string)
    requires SequentialIds(st, prefix)
    ensures SequentialIds(Step(st, t1, t2, prefix), prefix)
  {
  }

  lemma {:induction false} FoldSequentialIds(ts: seq<Transistor>, prefix: string, i: nat, j: nat)
    requires i < |ts| && j <= |ts|
    ensures SequentialIds(Fold(ts, prefix, i, j), prefix)
    decreases i, j
  {
    if j == 0 {
      if i > 0 {
        FoldSequentialIds(ts, prefix, i - 1, |ts|);
      }
    } else {
      FoldSequentialIds(ts, prefix, i, j - 1);
      if j - 1 > i {
        StepSequentialIds(Fold(ts, prefix, i, j - 1), ts[i], ts[j - 1], prefix);
      }
    }
  }

  lemma StepSound(st: Scan, ts: seq<Transistor>, prefix: string, i: nat, j: nat)
    requires i < j < |ts|
    requires Sound(st, ts)
    ensures Sound(Step(st, ts[i], ts[j], prefix), ts)
  {
    var r := Step(st, ts[i], ts[j], prefix);
    if |r.series| > |st.series| {
      assert FromList(r.series[|st.series|], ts, 2) by {
        assert r.series[|st.series|].first == ts[i] && r.series[|st.series|].second == ts[j];
      }
    }
    if |r.parallel| > |st.parallel| {
      assert FromList(r.parallel[|st.parallel|], ts, 3) by {
        assert r.parallel[|st.parallel|].first == ts[i] && r.parallel[|st.parallel|].second == ts[j];
      }
    }
  }

  lemma {:induction false} FoldSound(ts: seq<Transistor>, prefix: string, i: nat, j: nat)
    requires i < |ts| && j <= |ts|
    ensures Sound(Fold(ts, prefix, i, j), ts)
    decreases i, j
  {
    if j == 0 {
      if i > 0 {
        FoldSound(ts, prefix, i - 1, |ts|);
      }
    } else {
      FoldSound(ts, prefix, i, j - 1);
      if j - 1 > i {
        StepSound(Fold(ts, prefix, i, j - 1), ts, prefix, i, j - 1);
      }
    }
  }

  lemma KeysFreshSnoc(ps: seq<Pair>, used: set<(string, string)>, p: Pair)
    requires KeysFresh(ps, used) && KeyOf(p) !in used
    ensures KeysFresh(ps + [p], used + {KeyOf(p)})
  {
  }

  lemma StepOncePerKey(st: Scan, t1: Transistor, t2: Transistor, prefix: string)
    requires OncePerKey(st)
    ensures OncePerKey(Step(st, t1, t2, prefix))
  {
    var r := Step(st, t1, t2, prefix);
    var key := Key(t1.id, t2.id);
    if Linked(t1, t2) && key !in st.used {
      var used := st.used + {key};
      assert KeysFresh(st.series, used) && KeysFresh(st.parallel, used);
      if |r.series| > |st.series| {
        KeysFreshSnoc(st.series, st.used, r.series[|st.series|]);
        assert r.series == st.series + [r.series[|st.series|]];
      } else if |r.parallel| > |st.parallel| {
        KeysFreshSnoc(st.parallel, st.used, r.parallel[|st.parallel|]);
        assert r.parallel == st.parallel + [r.parallel[|st.parallel|]];
      }
    }
  }

  lemma StepUsed(st: Scan, t1: Transistor, t2: Transistor, prefix: string)
    ensures Step(st, t1, t2, prefix).used == if Linked(t1, t2) then st.used + {Key(t1.id, t2.id)} else st.used
  {
  }

  lemma UsedBeforeRow(ts: seq<Transistor>, i: nat)
    requires 0 < i < |ts|
    ensures UsedBefore(ts, i, 0) == UsedBefore(ts, i - 1, |ts|)
  {
    forall a, b | 0 <= a < b < |ts| ensures Before(a, b, i, 0) == Before(a, b, i - 1, |ts|) {
    }
  }

  lemma UsedBeforeStep(ts: seq<Transistor>, i: nat, j: nat)
    requires i < |ts| && 0 < j <= |ts|
    ensures UsedBefore(ts, i, j) ==
      UsedBefore(ts, i, j - 1) + (if j - 1 > i && Linked(ts[i], ts[j - 1]) then {Key(ts[i].id, ts[j - 1].id)} else {})
  {
    var extra: set<(string, string)> := if j - 1 > i && Linked(ts[i], ts[j - 1]) then {Key(ts[i].id, ts[j - 1].id)} else {};
    forall x | x in UsedBefore(ts, i, j) ensures x in UsedBefore(ts, i, j - 1) + extra {
      var a, b :| 0 <= a < b < |ts| && Before(a, b, i, j) && Linked(ts[a], ts[b]) && x == Key(ts[a].id, ts[b].id);
      if !(a == i && b == j - 1) {
        assert Before(a, b, i, j - 1);
      }
    }
    forall x | x in UsedBefore(ts, i, j - 1) + extra ensures x in UsedBefore(ts, i, j) {
      if x in UsedBefore(ts, i, j - 1) {
        var a, b :| 0 <= a < b < |ts| && Before(a, b, i, j - 1) && Linked(ts[a], ts[b]) && x == Key(ts[a].id, ts[b].id);
        assert Before(a, b, i, j);
      } else {
        assert Before(i, j - 1, i, j);
      }
    }
  }

  lemma {:induction false} FoldOncePerKey(ts: seq<Transistor>, prefix: string, i: nat, j: nat)
    requires i < |ts| && j <= |ts|
    ensures OncePerKey(Fold(ts, prefix, i, j))
    decreases i, j
  {
    if j == 0 {
      if i > 0 {
        FoldOncePerKey(ts, prefix, i - 1, |ts|);
      }
    } else {
      FoldOncePerKey(ts, prefix, i, j - 1);
      if j - 1 > i {
        StepOncePerKey(Fold(ts, prefix, i, j - 1), ts[i], ts[j - 1], prefix);
      }
    }
  }

  /** `used_pairs` holds the sorted id pairs of exactly the linked pairs examined so far. */
  lemma {:induction false} FoldUsed(ts: seq<Transistor>, prefix: string, i: nat, j: nat)
    requires i < |ts| && j <= |ts|
    ensures Fold(ts, prefix, i, j).used == UsedBefore(ts, i, j)
    decreases i, j
  {
    if j == 0 {
      if i > 0 {
        FoldUsed(ts, prefix, i - 1, |ts|);
        UsedBeforeRow(ts, i);
      }
    } else {
      FoldUsed(ts, prefix, i, j - 1);
      UsedBeforeStep(ts, i, j);
      if j - 1 > i {
        StepUsed(Fold(ts, prefix, i, j - 1), ts[i], ts[j - 1], prefix);
      }
    }
  }

  /** `ts[a]` and `ts[b]` appear, in that order, as a pair of `ps`. */
  ghost predicate Listed(ps: seq<Pair>, ta: Transistor, tb: Transistor)
  {
    exists k :: 0 <= k < |ps| && ps[k].first == ta && ps[k].second == tb
  }

  /** Every linked pair examined before `(i, j)` with two (three) midpoints is in the series (parallel) list. */
  ghost predicate Complete(st: Scan, ts: seq<Transistor>, i: nat, j: nat)
  {
    forall a, b :: 0 <= a < b < |ts| && Before(a, b, i, j) && Linked(ts[a], ts[b]) ==>
      (Spread(ts[a], ts[b]) == 2 ==> Listed(st.series, ts[a], ts[b])) &&
      (Spread(ts[a], ts[b]) == 3 ==> Listed(st.parallel, ts[a], ts[b]))
  }

  lemma FreshKey(ts: seq<Transistor>, i: nat, j: nat)
    requires DistinctIds(ts) && i < j < |ts|
    ensures Key(ts[i].id, ts[j].id) !in UsedBefore(ts, i, j)
  {
    if Key(ts[i].id, ts[j].id) in UsedBefore(ts, i, j) {
      var a, b :| 0 <= a < b < |ts| && Before(a, b, i, j) && Linked(ts[a], ts[b]) && Key(ts[a].id, ts[b].id) == Key(ts[i].id, ts[j].id);
      KeyOfSame(ts[a].id, ts[b].id, ts[i].id, ts[j].id);
    }
  }

  lemma StepKeepsListed(st: Scan, t1: Transistor, t2: Transistor, prefix: string, ta: Transistor, tb: Transistor)
    ensures Listed(st.series, ta, tb) ==> Listed(Step(st, t1, t2, prefix).series, ta, tb)
    ensures Listed(st.parallel, ta, tb) ==> Listed(Step(st, t1, t2, prefix).parallel, ta, tb)
  {
    var r := Step(st, t1, t2, prefix);
    assert r.series[..|st.series|] == st.series && r.parallel[..|st.parallel|] == st.parallel;
    if Listed(st.series, ta, tb) {
      var k :| 0 <= k < |st.series| && st.series[k].first == ta && st.series[k].second == tb;
      assert r.series[k] == st.series[k];
    }
    if Listed(st.parallel, ta, tb) {
      var k :| 0 <= k < |st.parallel| && st.parallel[k].first == ta && st.parallel[k].second == tb;
      assert r.parallel[k] == st.parallel[k];
    }
  }

  lemma StepComplete(ts: seq<Transistor>, prefix: string, i: nat, j: nat)
    requires DistinctIds(ts) && i < |ts| && j < |ts|
    requires Complete(Fold(ts, prefix, i, j), ts, i, j)
    ensures Complete(Fold(ts, prefix, i, j + 1), ts, i, j + 1)
  {
    var st := Fold(ts, prefix, i, j);
    var r := Fold(ts, prefix, i, j + 1);
    assert r == Visit(st, ts, prefix, i, j);
    forall a, b | 0 <= a < b < |ts| && Before(a, b, i, j + 1) && Linked(ts[a], ts[b])
      ensures Spread(ts[a], ts[b]) == 2 ==> Listed(r.series, ts[a], ts[b])
      ensures Spread(ts[a], ts[b]) == 3 ==> Listed(r.parallel, ts[a], ts[b])
    {
      if a == i && b == j {
        FoldUsed(ts, prefix, i, j);
        FreshKey(ts, i, j);
        assert r == Step(st, ts[i], ts[j], prefix);
        if Spread(ts[a], ts[b]) == 2 {
          assert r.series[|st.series|].first == ts[a];
        }
        if Spread(ts[a], ts[b]) == 3 {
          assert r.parallel[|st.parallel|].first == ts[a];
        }
      } else {
        assert Before(a, b, i, j);
        if j > i {
          StepKeepsListed(st, ts[i], ts[j], prefix, ts[a], ts[b]);
        }
      }
    }
  }

  lemma {:induction false} FoldComplete(ts: seq<Transistor>, prefix: string, i: nat, j: nat)
    requires DistinctIds(ts) && i < |ts| && j <= |ts|
    ensures Complete(Fold(ts, prefix, i, j), ts, i, j)
    decreases i, j
  {
    if j == 0 {
      if i > 0 {
        FoldComplete(ts, prefix, i - 1, |ts|);
        var st := Fold(ts, prefix, i - 1, |ts|);
        assert Fold(ts, prefix, i, 0) == st;
        forall a, b | 0 <= a < b < |ts| && Before(a, b, i, 0) && Linked(ts[a], ts[b])
          ensures Spread(ts[a], ts[b]) == 2 ==> Listed(st.series, ts[a], ts[b])
          ensures Spread(ts[a], ts[b]) == 3 ==> Listed(st.parallel, ts[a], ts[b])
        {
          assert Before(a, b, i - 1, |ts|);
        }
      }
    } else {
      FoldComplete(ts, prefix, i, j - 1);
      StepComplete(ts, prefix, i, j - 1);
    }
  }

  /** `find_pairs_for_type` numbers its pairs `<prefix>SERIES_PAIR_1, ...` and `<prefix>PARALLEL_PAIR_1, ...`. */
  lemma PairIdsSequential(ts: seq<Transistor>, prefix: string)
    ensures SequentialIds(PairsOf(ts, prefix), prefix)
  {
    if ts != [] {
      FoldSequentialIds(ts, prefix, |ts| - 1, |ts|);
    }
  }

  /**
   * Each recorded pair joins an earlier and a later transistor of the list,
   * linked, with two (series) or three (parallel) distinct midpoints.
   */
  lemma PairsSound(ts: seq<Transistor>, prefix: string)
    ensures Sound(PairsOf(ts, prefix), ts)
  {
    if ts != [] {
      FoldSound(ts, prefix, |ts| - 1, |ts|);
    }
  }

  /** No sorted id pair is recorded twice. */
  lemma PairsOncePerKey(ts: seq<Transistor>, prefix: string)
    ensures OncePerKey(PairsOf(ts, prefix))
  {
    if ts != [] {
      FoldOncePerKey(ts, prefix, |ts| - 1, |ts|);
    }
  }

  /** When the ids are distinct, every linked pair with two or three distinct midpoints is recorded. */
  lemma PairsOfComplete(ts: seq<Transistor>, prefix: string, a: nat, b: nat)
    requires DistinctIds(ts)
    requires a < b < |ts| && Linked(ts[a], ts[b])
    ensures Spread(ts[a], ts[b]) == 2 ==> Listed(PairsOf(ts, prefix).series, ts[a], ts[b])
    ensures Spread(ts[a], ts[b]) == 3 ==> Listed(PairsOf(ts, prefix).parallel, ts[a], ts[b])
  {
    var n := |ts|;
    FoldComplete(ts, prefix, n - 1, n);
    assert Before(a, b, n - 1, n);
  }

  // ---------------------------------------------------------------------
  // The methods.

  /** The body of the inner loop for `j > i`. */
  method Examine(t1: Transistor, t2: Transistor, prefix: string, st0: Scan, parallelId0: int, seriesId0: int)
    returns (st: Scan, parallelId: int, seriesId: int)
    requires parallelId0 == |st0.parallel| + 1 && seriesId0 == |st0.series| + 1
    ensures st == Step(st0, t1, t2, prefix)
    ensures parallelId == |st.parallel| + 1 && seriesId == |st.series| + 1
  {
    st, parallelId, seriesId := st0, parallelId0, seriesId0;
    var sourceOverlap := ContactsOverlap(t1.dev.source, t2.dev.source);
    var drainOverlap := ContactsOverlap(t1.dev.drain, t2.dev.drain);
    if sourceOverlap || drainOverlap {
      var key := Key(t1.id, t2.id);
      if key in st.used {
        return;
      }
      st := st.(used := st.used + {key});
      var positions := set c | c in t1.dev.contacts + t2.dev.contacts :: Mid(c);
      if |positions| == 2 {
        st := st.(series := st.series + [Pair(Label(prefix + "SERIES_PAIR_", seriesId), t1, t2)]);
        seriesId := seriesId + 1;
      } else if |positions| == 3 {
        st := st.(parallel := st.parallel + [Pair(Label(prefix + "PARALLEL_PAIR_", parallelId), t1, t2)]);
        parallelId := parallelId + 1;
      }
    }
  }

  /** `find_pairs_for_type(transistor_list, prefix)`. */
  method FindPairsForType(ts: seq<Transistor>, prefix: string) returns (parallel: seq<Pair>, series: seq<Pair>)
    ensures parallel == PairsOf(ts, prefix).parallel && series == PairsOf(ts, prefix).series
  {
    var st := Scan([], [], {});
    var parallelId, seriesId := 1, 1;
    for i := 0 to |ts|
      invariant st == (if i == 0 then Scan([], [], {}) else Fold(ts, prefix, i - 1, |ts|))
      invariant parallelId == |st.parallel| + 1 && seriesId == |st.series| + 1
    {
      for j := 0 to |ts|
        invariant st == Fold(ts, prefix, i, j)
        invariant parallelId == |st.parallel| + 1 && seriesId == |st.series| + 1
      {
        if j <= i {
          continue;
        }
        st, parallelId, seriesId := Examine(ts[i], ts[j], prefix, st, parallelId, seriesId);
      }
    }
    parallel, series := st.parallel, st.series;
  }

  function Polarity(ts: seq<Transistor>, well: bool): (r: seq<Transistor>)
    ensures forall k :: 0 <= k < |r| ==> r[k].dev.inWell == well && r[k] in ts
  {
    if ts == [] then []
    else
      var rest := Polarity(ts[..|ts| - 1], well);
      assert forall t :: t in ts[..|ts| - 1] ==> t in ts;
      rest + (if ts[|ts| - 1].dev.inWell == well then [ts[|ts| - 1]] else [])
  }

  /** `find_transistor_pairs`: NMOS pairs before PMOS pairs in both lists. */
  function TransistorPairs(ts: seq<Transistor>): (seq<Pair>, seq<Pair>)
  {
    var n := PairsOf(Polarity(ts, false), "NMOS_");
    var p := PairsOf(Polarity(ts, true), "PMOS_");
    (n.parallel + p.parallel, n.series + p.series)
  }

  method FindTransistorPairs(ts: seq<Transistor>) returns (parallel: seq<Pair>, series: seq<Pair>)
    ensures (parallel, series) == TransistorPairs(ts)
  {
    var nmos := [];
    var pmos := [];
    for k := 0 to |ts|
      invariant nmos == Polarity(ts[..k], false) && pmos == Polarity(ts[..k], true)
    {
      assert ts[..k + 1][..k] == ts[..k];
      if ts[k].dev.inWell {
        pmos := pmos + [ts[k]];
      } else {
        nmos := nmos + [ts[k]];
      }
    }
    assert ts[..|ts|] == ts;
    var nmosParallel, nmosSeries := FindPairsForType(nmos, "NMOS_");
    var pmosParallel, pmosSeries := FindPairsForType(pmos, "PMOS_");
    parallel, series := nmosParallel + pmosParallel, nmosSeries + pmosSeries;
  }

  /** Both polarities pair only among themselves: every pair joins two NMOS or two PMOS transistors. */
  lemma PairsKeepPolarity(ts: seq<Transistor>, well: bool, prefix: string)
    ensures forall k :: 0 <= k < |PairsOf(Polarity(ts, well), prefix).series| ==>
      PairsOf(Polarity(ts, well), prefix).series[k].first.dev.inWell == well &&
      PairsOf(Polarity(ts, well), prefix).series[k].second.dev.inWell == well
    ensures forall k :: 0 <= k < |PairsOf(Polarity(ts, well), prefix).parallel| ==>
      PairsOf(Polarity(ts, well), prefix).parallel[k].first.dev.inWell == well &&
      PairsOf(Polarity(ts, well), prefix).parallel[k].second.dev.inWell == well
  {
    var side := Polarity(ts, well);
    var st := PairsOf(side, prefix);
    PairsSound(side, prefix);
    forall k | 0 <= k < |st.series|
      ensures st.series[k].first.dev.inWell == well && st.series[k].second.dev.inWell == well
    {
      assert FromList(st.series[k], side, 2);
    }
    forall k | 0 <= k < |st.parallel|
      ensures st.parallel[k].first.dev.inWell == well && st.parallel[k].second.dev.inWell == well
    {
      assert FromList(st.parallel[k], side, 3);
    }
  }

  /** Splitting by polarity keeps ids distinct. */
  lemma {:induction false} PolarityDistinct(ts: seq<Transistor>, well: bool)
    requires DistinctIds(ts)
    ensures DistinctIds(Polarity(ts, well))
  {
    if ts != [] {
      var n := |ts|;
      var init := ts[..n - 1];
      assert DistinctIds(init) by {
        forall a, b | 0 <= a < b < |init| ensures init[a].id != init[b].id {
          assert init[a] == ts[a] && init[b] == ts[b];
        }
      }
      PolarityDistinct(init, well);
      var rest := Polarity(init, well);
      forall k | 0 <= k < |rest| ensures rest[k].id != ts[n - 1].id {
        assert rest[k] in init;
        var a :| 0 <= a < |init| && init[a] == rest[k];
        assert ts[a] == rest[k];
      }
    }
  }

  /**
   * The transistors the extractor numbers have distinct ids on each side of
   * the polarity split, so `PairsOfComplete` applies to both lists the pair
   * search receives.
   */
  lemma ExtractedSidesDistinct(ds: seq<Device>, well: bool)
    ensures DistinctIds(Polarity(Numbered(ds, false, "NMOS_") + Numbered(ds, true, "PMOS_"), well))
  {
    IdsUnique(ds);
    PolarityDistinct(Numbered(ds, false, "NMOS_") + Numbered(ds, true, "PMOS_"), well);
  }
}
