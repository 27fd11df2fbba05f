/**
 * The dependency-resolution loop of `simulate_circuit`: device statements wait
 * in a queue and move to the resolved list once every wire they read is
 * known; a statement that is not ready yet is rotated to the tail.
 */
module Resolve {
  import opened Wrappers
  import opened Text
  import opened Netlist

  /**
   * `grabinputs` and `graboutputs` on a sub-circuit, as the loop calls them:
   * its port lists by name, or why they cannot be read.
   */
  type PortLookup = string -> Result<Ports, SimError>

  function Elems(s: seq<string>): set<string>
  {
    set w | w in s
  }

  /** What one look at the head of the queue decides. */
  datatype Readiness = Ready(produced: seq<string>) | Blocked

  /**
   * `all(h[i] in wire for i in range(i0, end))`: stops at the first unknown
   * wire and raises IndexError when it runs off the statement first.
   */
  function AllKnown(h: Statement, i: nat, end: nat, known: set<string>): (r: Result<bool, SimError>)
    ensures r == Ok(true) <==> end <= i || (end <= |h| && forall j :: i <= j < end ==> h[j] in known)
    ensures r.Err? <==> i < end && |h| < end && forall j :: i <= j < |h| ==> h[j] in known
    ensures r.Err? ==> r.error == Malformed(h)
    decreases end - i
  {
    if i >= end then Ok(true)
    else if i >= |h| then Err(Malformed(h))
    else if h[i] !in known then Ok(false)
    else AllKnown(h, i + 1, end, known)
  }

  /** `h[from..to]` cut short where `h` ends: the tokens a `range` loop reaches before an IndexError. */
  function Span(h: Statement, from: nat, to: nat): (r: seq<string>)
    requires from <= to
    ensures |r| <= to - from
    ensures |r| == to - from <==> from == to || to <= |h|
    ensures forall j :: 0 <= j < |r| ==> from + j < |h| && r[j] == h[from + j]
  {
    var lo := if from <= |h| then from else |h|;
    var hi := if to <= |h| then to else |h|;
    h[lo..hi]
  }

  /** The actual wires bound to the sub-circuit's n inputs: `h[3..3+n]`. */
  function Actuals(h: Statement, p: Ports): seq<string>
  {
    Span(h, 3, 3 + |p.ins|)
  }

  /** The actual wires that receive the sub-circuit's m outputs: `h[3+n..3+n+m]`. */
  function Results(h: Statement, p: Ports): seq<string>
  {
    Span(h, 3 + |p.ins|, 3 + |p.ins| + |p.outs|)
  }

  /** `h` has every actual that a sub-circuit with ports `p` makes the source index. */
  predicate Fits(h: Statement, p: Ports)
  {
    |Actuals(h, p)| == |p.ins| && |Results(h, p)| == |p.outs|
  }

  /** The NMOS/PMOS branch: ready once the gate `h[2]` and the source `h[3]` are known; produces the drain `h[4]`. */
  function CheckTransistor(h: Statement, known: set<string>): (r: Result<Readiness, SimError>)
    ensures (r.Ok? && r.value.Ready?) <==> |h| >= 5 && h[2] in known && h[3] in known
    ensures r.Ok? && r.value.Ready? ==> r.value.produced == [h[4]]
    ensures r.Err? <==> |h| < 3 || (h[2] in known && |h| < 4) || (h[2] in known && h[3] in known && |h| < 5)
    ensures r.Err? ==> r.error == Malformed(h)
  {
    if |h| < 3 then Err(Malformed(h))
    else if h[2] !in known then Ok(Blocked)
    else if |h| < 4 then Err(Malformed(h))
    else if h[3] !in known then Ok(Blocked)
    else if |h| < 5 then Err(Malformed(h))
    else Ok(Ready([h[4]]))
  }

  /**
   * The INST branch once the sub-circuit's ports `p` are read: ready once the
   * first n actuals are known (n inputs), and then produces the next m
   * actuals (m outputs).
   */
  function CheckActuals(h: Statement, p: Ports, known: set<string>): (r: Result<Readiness, SimError>)
    ensures (r.Ok? && r.value.Ready?) <==>
      Fits(h, p) && forall j :: 0 <= j < |Actuals(h, p)| ==> Actuals(h, p)[j] in known
    ensures r.Ok? && r.value.Ready? ==> r.value.produced == Results(h, p)
    ensures r.Err? ==> r.error == Malformed(h)
  {
    var n := |p.ins|;
    match AllKnown(h, 3, 3 + n, known)
    case Err(e) => Err(e)
    case Ok(false) =>
      var j :| 3 <= j < 3 + n && j < |h| && h[j] !in known;
      assert Actuals(h, p)[j - 3] == h[j];
      Ok(Blocked)
    case Ok(true) =>
      if !Fits(h, p) then Err(Malformed(h)) else Ok(Ready(Results(h, p)))
  }

  /** The INST branch: `h[1]` names the sub-circuit, whose port files are read first. */
  function CheckInst(lookup: PortLookup, h: Statement, known: set<string>): Result<Readiness, SimError>
  {
    if |h| < 2 then Err(Malformed(h))
    else
      match lookup(h[1])
      case Err(e) => Err(e)
      case Ok(p) => CheckActuals(h, p, known)
  }

  /** One visit to the head of the queue (`queue[0][0] != "INST"` chooses the branch). */
  function CheckHead(lookup: PortLookup, h: Statement, known: set<string>): Result<Readiness, SimError>
  {
    if Keyword(h) != "INST" then CheckTransistor(h, known) else CheckInst(lookup, h, known)
  }

  /** Learning more wires never un-readies a statement, nor changes what it produces. */
  lemma CheckHeadMonotone(lookup: PortLookup, h: Statement, known: set<string>, more: set<string>)
    requires known <= more
    requires CheckHead(lookup, h, known).Ok? && CheckHead(lookup, h, known).value.Ready?
    ensures CheckHead(lookup, h, more) == CheckHead(lookup, h, known)
  {
    if Keyword(h) == "INST" {
      var a := Actuals(h, lookup(h[1]).value);
      assert forall j :: 0 <= j < |a| ==> a[j] in more;
    }
  }

  /**
   * The queue's outcome: the resolved order and the final wire set, or the
   * statements still pending when a whole pass made no progress.
   */
  datatype Resolution =
    | Resolved(order: seq<Statement>, known: set<string>)
    | Stuck(pending: seq<Statement>, known: set<string>)

  /**
   * The `while len(queue) > 0` loop. `stalled` counts the heads rotated since
   * the last statement was resolved; once a whole pass makes no progress the
   * source loop would spin forever, and the model reports the stuck queue.
   */
  function ResolveFrom(lookup: PortLookup, queue: seq<Statement>, order: seq<Statement>,
                       known: set<string>, stalled: nat): Result<Resolution, SimError>
    decreases |queue|, |queue| - stalled
  {
    if queue == [] then Ok(Resolved(order, known))
    else if stalled >= |queue| then Ok(Stuck(queue, known))
    else
      var c := CheckHead(lookup, queue[0], known);
      if c.Err? then Err(c.error)
      else if c.value.Ready? then ResolveFrom(lookup, queue[1..], order + [queue[0]], known + Elems(c.value.produced), 0)
      else ResolveFrom(lookup, queue[1..] + [queue[0]], order, known, stalled + 1)
  }

  /** The loop itself: pop, append and rotate on the queue. */
  method ResolveQueue(lookup: PortLookup, devices: seq<Statement>, known0: set<string>)
    returns (r: Result<Resolution, SimError>)
    ensures r == ResolveFrom(lookup, devices, [], known0, 0)
  {
    var queue, order, known, stalled := devices, [], known0, 0;
    while queue != []
      invariant ResolveFrom(lookup, queue, order, known, stalled) == ResolveFrom(lookup, devices, [], known0, 0)
      decreases |queue|, |queue| - stalled
    {
      if stalled >= |queue| {
        return Ok(Stuck(queue, known));
      }
      var head := queue[0];
      var c := CheckHead(lookup, head, known);
      if c.Err? {
        return Err(c.error);
      }
      if c.value.Ready? {
        known := AddWires(known, c.value.produced);
        order := order + [head];
        queue := queue[1..];
        stalled := 0;
      } else {
        queue := queue[1..] + [head];
        stalled := stalled + 1;
      }
    }
    return Ok(Resolved(order, known));
  }

  /** `wire.append(...)` for each produced wire. */
  method AddWires(known: set<string>, p: seq<string>) returns (r: set<string>)
    ensures r == known + Elems(p)
  {
    r := known;
    for i := 0 to |p|
      invariant r == known + Elems(p[..i])
    {
      assert Elems(p[..i + 1]) == Elems(p[..i]) + {p[i]} by {
        assert p[..i + 1] == p[..i] + [p[i]];
      }
      r := r + {p[i]};
    }
    assert p[..|p|] == p;
  }

  /**
   * Replaying a resolved order from the initial wires: every statement is
   * ready on the wires known before it, and adds what it produces.
   */
  function Replay(lookup: PortLookup, known0: set<string>, rs: seq<Statement>): Option<set<string>>
  {
    if rs == [] then Some(known0)
    else
      var k := Replay(lookup, known0, rs[..|rs| - 1]);
      if k.None? then None
      else
        var c := CheckHead(lookup, rs[|rs| - 1], k.value);
        if c.Ok? && c.value.Ready? then Some(k.value + Elems(c.value.produced)) else None
  }

  /** `h` is ready on `keys`, and everything it produces is in `keys`. */
  predicate ReadyWith(lookup: PortLookup, h: Statement, keys: set<string>)
  {
    var c := CheckHead(lookup, h, keys);
    c.Ok? && c.value.Ready? && forall i :: 0 <= i < |c.value.produced| ==> c.value.produced[i] in keys
  }

  /** Every statement reads and writes only wires in `keys`: evaluation never misses a key. */
  predicate Settled(lookup: PortLookup, rs: seq<Statement>, keys: set<string>)
  {
    forall i :: 0 <= i < |rs| ==> ReadyWith(lookup, rs[i], keys)
  }

  /** The rotated-away heads at the tail of the queue are all blocked on `known`. */
  predicate BlockedTail(lookup: PortLookup, queue: seq<Statement>, known: set<string>, stalled: nat)
  {
    stalled <= |queue| && forall k :: |queue| - stalled <= k < |queue| ==> CheckHead(lookup, queue[k], known) == Ok(Blocked)
  }

  /** The loop only moves statements from the queue to the resolved list: nothing is lost or duplicated. */
  lemma {:induction false} ResolveFromPermutes(lookup: PortLookup, queue: seq<Statement>, order: seq<Statement>,
                                               known: set<string>, stalled: nat)
    requires ResolveFrom(lookup, queue, order, known, stalled).Ok?
    requires ResolveFrom(lookup, queue, order, known, stalled).value.Resolved?
    ensures multiset(ResolveFrom(lookup, queue, order, known, stalled).value.order) == multiset(order) + multiset(queue)
    decreases |queue|, |queue| - stalled
  {
    if queue != [] {
      var h := queue[0];
      var c := CheckHead(lookup, h, known);
      PopMultiset(queue, order);
      if c.value.Ready? {
        ResolveFromPermutes(lookup, queue[1..], order + [h], known + Elems(c.value.produced), 0);
      } else {
        ResolveFromPermutes(lookup, queue[1..] + [h], order, known, stalled + 1);
      }
    }
  }

  /** Moving the head of the queue to the order or to the back of the queue loses no statement. */
  lemma PopMultiset(queue: seq<Statement>, order: seq<Statement>)
    requires queue != []
    ensures multiset(order + [queue[0]]) + multiset(queue[1..]) == multiset(order) + multiset(queue)
    ensures multiset(queue[1..] + [queue[0]]) == multiset(queue)
  {
    assert queue == [queue[0]] + queue[1..];
  }

  /**
   * The resolved list is a valid replay order from the initial wires, ending
   * on the final wire set, and the wire set only grew.
   */
  lemma {:induction false} ResolveFromReplays(lookup: PortLookup, queue: seq<Statement>, order: seq<Statement>,
                                              known: set<string>, stalled: nat, known0: set<string>)
    requires Replay(lookup, known0, order) == Some(known)
    requires ResolveFrom(lookup, queue, order, known, stalled).Ok?
    requires ResolveFrom(lookup, queue, order, known, stalled).value.Resolved?
    ensures var res := ResolveFrom(lookup, queue, order, known, stalled).value;
      Replay(lookup, known0, res.order) == Some(res.known) && known <= res.known
    decreases |queue|, |queue| - stalled
  {
    if queue != [] {
      var h := queue[0];
      var c := CheckHead(lookup, h, known);
      if c.value.Ready? {
        var order' := order + [h];
        assert order'[..|order'| - 1] == order;
        ResolveFromReplays(lookup, queue[1..], order', known + Elems(c.value.produced), 0, known0);
      } else {
        ResolveFromReplays(lookup, queue[1..] + [h], order, known, stalled + 1, known0);
      }
    }
  }

  /**
   * When the loop stops without progress, every pending statement is blocked
   * on the wires known, so the source loop would rotate forever; nothing was
   * lost from the queue on the way.
   */
  lemma {:induction false} ResolveFromStuck(lookup: PortLookup, queue: seq<Statement>, order: seq<Statement>,
                                            known: set<string>, stalled: nat)
    requires BlockedTail(lookup, queue, known, stalled)
    requires ResolveFrom(lookup, queue, order, known, stalled).Ok?
    requires ResolveFrom(lookup, queue, order, known, stalled).value.Stuck?
    ensures var e := ResolveFrom(lookup, queue, order, known, stalled).value;
      && e.pending != []
      && (forall k :: 0 <= k < |e.pending| ==> CheckHead(lookup, e.pending[k], e.known) == Ok(Blocked))
      && known <= e.known
    decreases |queue|, |queue| - stalled
  {
    if stalled < |queue| {
      var h := queue[0];
      var c := CheckHead(lookup, h, known);
      if c.value.Ready? {
        ResolveFromStuck(lookup, queue[1..], order + [h], known + Elems(c.value.produced), 0);
      } else {
        var q := queue[1..] + [h];
        forall k | |q| - (stalled + 1) <= k < |q|
          ensures CheckHead(lookup, q[k], known) == Ok(Blocked)
        {
          if k < |q| - 1 {
            assert q[k] == queue[k + 1];
          }
        }
        ResolveFromStuck(lookup, q, order, known, stalled + 1);
      }
    }
  }

  /** The sub-circuit reader fails only on a missing file or a PORT line too short to read. */
  ghost predicate ReadFailures(lookup: PortLookup)
  {
    forall name :: lookup(name).Err? ==> lookup(name).error.Malformed? || lookup(name).error.MissingNetlist?
  }

  /** The loop fails only with the reader's failures or an IndexError on a short statement. */
  lemma {:induction false} ResolveFromErrors(lookup: PortLookup, queue: seq<Statement>, order: seq<Statement>,
                                             known: set<string>, stalled: nat)
    requires ReadFailures(lookup)
    ensures ResolveFrom(lookup, queue, order, known, stalled).Err? ==>
      ResolveFrom(lookup, queue, order, known, stalled).error.Malformed? ||
      ResolveFrom(lookup, queue, order, known, stalled).error.MissingNetlist?
    decreases |queue|, |queue| - stalled
  {
    if queue != [] && stalled < |queue| {
      var h := queue[0];
      var c := CheckHead(lookup, h, known);
      if Keyword(h) == "INST" && |h| >= 2 {
        assert lookup(h[1]).Err? ==> lookup(h[1]).error.Malformed? || lookup(h[1]).error.MissingNetlist?;
      }
      if c.Ok? && c.value.Ready? {
        ResolveFromErrors(lookup, queue[1..], order + [h], known + Elems(c.value.produced), 0);
      } else if c.Ok? {
        ResolveFromErrors(lookup, queue[1..] + [h], order, known, stalled + 1);
      }
    }
  }

  /** A replay order is settled on its final wire set, which contains the initial wires. */
  lemma {:induction false} ReplaySettled(lookup: PortLookup, known0: set<string>, rs: seq<Statement>, known: set<string>)
    requires Replay(lookup, known0, rs) == Some(known)
    ensures known0 <= known
    ensures Settled(lookup, rs, known)
  {
    if rs != [] {
      var init := rs[..|rs| - 1];
      var h := rs[|rs| - 1];
      var k :| Replay(lookup, known0, init) == Some(k);
      ReplaySettled(lookup, known0, init, k);
      var p := CheckHead(lookup, h, k).value.produced;
      assert known == k + Elems(p);
      forall i | 0 <= i < |rs| ensures ReadyWith(lookup, rs[i], known) {
        var x := rs[i];
        if i < |rs| - 1 {
          assert x == init[i];
          assert ReadyWith(lookup, x, k);
        }
        CheckHeadMonotone(lookup, x, k, known);
      }
    }
  }

  /** The resolution as `simulate_circuit` starts it, with everything the evaluation relies on. */
  lemma ResolvedSettled(lookup: PortLookup, devices: seq<Statement>, known0: set<string>)
    requires ResolveFrom(lookup, devices, [], known0, 0).Ok?
    requires ResolveFrom(lookup, devices, [], known0, 0).value.Resolved?
    ensures var res := ResolveFrom(lookup, devices, [], known0, 0).value;
      && multiset(res.order) == multiset(devices)
      && known0 <= res.known
      && Settled(lookup, res.order, res.known)
  {
    ResolveFromPermutes(lookup, devices, [], known0, 0);
    ResolveFromReplays(lookup, devices, [], known0, 0, known0);
    var res := ResolveFrom(lookup, devices, [], known0, 0).value;
    ReplaySettled(lookup, known0, res.order, res.known);
  }

  /** A stuck resolution from the initial wires: nothing pending can ever become ready. */
  lemma StuckForever(lookup: PortLookup, devices: seq<Statement>, known0: set<string>)
    requires ResolveFrom(lookup, devices, [], known0, 0).Ok?
    requires ResolveFrom(lookup, devices, [], known0, 0).value.Stuck?
    ensures var e := ResolveFrom(lookup, devices, [], known0, 0).value;
      && e.pending != []
      && (forall k :: 0 <= k < |e.pending| ==> CheckHead(lookup, e.pending[k], e.known) == Ok(Blocked))
      && known0 <= e.known
  {
    ResolveFromStuck(lookup, devices, [], known0, 0);
  }
}
