/**
 * `pathfind`: a search over the screen grid from an object's position to a target, with
 * `came_from` and `cost_so_far` maps and the path read back along `came_from`.
 *
 * The frontier is a `PriorityQueue` whose `put(item, priority)` calls pass the priority
 * as the queue's `block` flag, so the queue orders the positions themselves: the next
 * position taken is the least one in (row, column) order, not the cheapest one. The
 * search therefore finds a path but not, in general, a shortest one.
 */
module Pathfinding {
  import opened Wrappers
  import opened GameObjects

  /** The exceptions `pathfind` can raise. */
  datatype PathError = KeyError | TypeError

  /** On the screen: rows `0..maxY` and columns `0..maxX`, both ends included. */
  predicate InGrid(p: Pos, maxY: int, maxX: int) {
    0 <= p.y <= maxY && 0 <= p.x <= maxX
  }

  /** One step up, down, left or right. */
  predicate Adjacent(a: Pos, b: Pos) {
    || (a.x == b.x && (a.y == b.y + 1 || a.y + 1 == b.y))
    || (a.y == b.y && (a.x == b.x + 1 || a.x + 1 == b.x))
  }

  // ---------------------------------------------------------------------------
  // `get_neighbors`

  /** The four candidates, in the order `get_neighbors` tries them. */
  function Candidates(p: Pos): (cs: seq<Pos>)
    ensures forall n :: n in cs <==> Adjacent(p, n)
  {
    [Pos(p.y + 1, p.x), Pos(p.y - 1, p.x), Pos(p.y, p.x + 1), Pos(p.y, p.x - 1)]
  }

  /** The candidates on the screen, in their order. */
  function KeepInGrid(cs: seq<Pos>, maxY: int, maxX: int): (ns: seq<Pos>)
    ensures forall n :: n in ns <==> n in cs && InGrid(n, maxY, maxX)
    ensures |ns| <= |cs|
  {
    if cs == [] then []
    else
      var last := cs[|cs| - 1];
      assert cs == cs[..|cs| - 1] + [last];
      KeepInGrid(cs[..|cs| - 1], maxY, maxX) + (if InGrid(last, maxY, maxX) then [last] else [])
  }

  /** The filter keeps the candidates' order: filtering two lists one after the other is filtering their concatenation. */
  lemma {:induction false} KeepInGridAppend(a: seq<Pos>, b: seq<Pos>, maxY: int, maxX: int)
    ensures KeepInGrid(a + b, maxY, maxX) == KeepInGrid(a, maxY, maxX) + KeepInGrid(b, maxY, maxX)
    decreases |b|
  {
    if b == [] {
      assert a + b == a;
    } else {
      var b' := b[..|b| - 1];
      assert (a + b)[..|a + b| - 1] == a + b';
      assert (a + b)[|a + b| - 1] == b[|b| - 1];
      KeepInGridAppend(a, b', maxY, maxX);
    }
  }

  /** What `get_neighbors` returns: exactly the adjacent positions on the screen. */
  function Neighbors(p: Pos, maxY: int, maxX: int): (ns: seq<Pos>)
    ensures forall n :: n in ns <==> InGrid(n, maxY, maxX) && Adjacent(p, n)
    ensures |ns| <= 4
  {
    KeepInGrid(Candidates(p), maxY, maxX)
  }

  /** `get_neighbors` (termgame.py:343-353): the candidates filtered against the screen bounds. */
  method GetNeighbors(p: Pos, maxY: int, maxX: int) returns (ns: seq<Pos>)
    ensures ns == Neighbors(p, maxY, maxX)
  {
    var cs := Candidates(p);
    ns := [];
    for i := 0 to |cs|
      invariant ns == KeepInGrid(cs[..i], maxY, maxX)
    {
      var n := cs[i];
      assert cs[..i + 1][..i] == cs[..i];
      if n.y < 0 || n.y > maxY {
        continue;
      } else if n.x < 0 || n.x > maxX {
        continue;
      } else {
        ns := ns + [n];
      }
    }
    assert cs[..|cs|] == cs;
  }

  // ---------------------------------------------------------------------------
  // The frontier

  /** The order of Python tuples of two integers: by row, then by column. */
  predicate Before(a: Pos, b: Pos) {
    a.y < b.y || (a.y == b.y && a.x <= b.x)
  }

  ghost predicate Sorted(q: seq<Pos>) {
    forall i, j :: 0 <= i < j < |q| ==> Before(q[i], q[j])
  }

  /** `put`: the position joins the queue; a position may be queued several times. */
  function Insert(q: seq<Pos>, p: Pos): (r: seq<Pos>)
    ensures multiset(r) == multiset(q) + multiset{p}
    ensures |r| == |q| + 1
  {
    if q == [] || Before(p, q[0]) then [p] + q
    else
      assert q == [q[0]] + q[1..];
      [q[0]] + Insert(q[1..], p)
  }

  /** A sorted queue stays sorted, so its first element stays the least one (what `get` takes). */
  lemma {:induction false} InsertSorted(q: seq<Pos>, p: Pos)
    requires Sorted(q)
    ensures Sorted(Insert(q, p))
    ensures forall i :: 0 <= i < |Insert(q, p)| ==> Before(Insert(q, p)[0], Insert(q, p)[i])
  {
    if q == [] || Before(p, q[0]) {
      SortedCons(p, q);
    } else {
      var t := q[1..];
      InsertSorted(t, p);
      var rt := Insert(t, p);
      forall i | 0 <= i < |rt| ensures Before(q[0], rt[i]) {
        assert rt[i] in multiset(rt);
        assert rt[i] in multiset(t) || rt[i] == p;
        if rt[i] != p {
          var k :| 0 <= k < |t| && t[k] == rt[i];
          assert t[k] == q[k + 1];
        }
      }
      SortedCons(q[0], rt);
    }
  }

  /** A least position in front of a sorted queue keeps it sorted. */
  lemma SortedCons(p: Pos, q: seq<Pos>)
    requires Sorted(q) && forall i :: 0 <= i < |q| ==> Before(p, q[i])
    ensures Sorted([p] + q)
    ensures forall i :: 0 <= i < |[p] + q| ==> Before(([p] + q)[0], ([p] + q)[i])
  {
    var r := [p] + q;
    forall i, j | 0 <= i < j < |r| ensures Before(r[i], r[j]) {
      assert r[j] == q[j - 1];
      if i > 0 {
        assert r[i] == q[i - 1];
      }
    }
  }

  // ---------------------------------------------------------------------------
  // What the search keeps

  /** The start is the root: cost 0 and no predecessor, and both maps have the same keys. */
  ghost predicate Rooted(start: Pos, cost: map<Pos, nat>, cameFrom: map<Pos, Option<Pos>>) {
    && start in cost && cost[start] == 0
    && cost.Keys == cameFrom.Keys
    && cameFrom[start] == None
  }

  /** An explored position other than the start: on the screen, reached from an adjacent cheaper position. */
  ghost predicate Step(p: Pos, cost: map<Pos, nat>, cameFrom: map<Pos, Option<Pos>>, maxY: int, maxX: int) {
    && p in cost && p in cameFrom
    && InGrid(p, maxY, maxX)
    && cameFrom[p].Some? && cameFrom[p].value in cost
    && Adjacent(cameFrom[p].value, p)
    && cost[cameFrom[p].value] < cost[p]
  }

  ghost predicate Linked(start: Pos, cost: map<Pos, nat>, cameFrom: map<Pos, Option<Pos>>, maxY: int, maxX: int) {
    forall p :: p in cameFrom && p != start ==> Step(p, cost, cameFrom, maxY, maxX)
  }

  /** No cost reaches the number of explored positions. */
  ghost predicate Bounded(cost: map<Pos, nat>) {
    forall p :: p in cost ==> cost[p] < |cost.Keys|
  }

  /** The `came_from` tree: following it from any explored position strictly lowers the cost down to the start. */
  ghost predicate Tree(start: Pos, cost: map<Pos, nat>, cameFrom: map<Pos, Option<Pos>>, maxY: int, maxX: int) {
    Rooted(start, cost, cameFrom) && Linked(start, cost, cameFrom, maxY, maxX) && Bounded(cost)
  }

  /** Every neighbour of the position has been explored. */
  ghost predicate Done(p: Pos, cost: map<Pos, nat>, maxY: int, maxX: int) {
    forall n :: n in Neighbors(p, maxY, maxX) ==> n in cost
  }

  /** Every explored position is still queued or has had all its neighbours explored. */
  ghost predicate Closed(cost: map<Pos, nat>, frontier: seq<Pos>, maxY: int, maxX: int) {
    forall p :: p in cost ==> p in frontier || Done(p, cost, maxY, maxX)
  }

  /** Every queued position has been explored. */
  ghost predicate Queued(frontier: seq<Pos>, cost: map<Pos, nat>) {
    forall p :: p in frontier ==> p in cost
  }

  /** Lowering the cost of `n` to one more than an explored neighbour's keeps the tree. */
  lemma RelaxTree(start: Pos, cost: map<Pos, nat>, cameFrom: map<Pos, Option<Pos>>, maxY: int, maxX: int, current: Pos, n: Pos)
    requires Tree(start, cost, cameFrom, maxY, maxX) && current in cost
    requires InGrid(n, maxY, maxX) && Adjacent(current, n)
    requires n !in cost || cost[current] + 1 < cost[n]
    ensures n != start
    ensures Tree(start, cost[n := cost[current] + 1], cameFrom[n := Some(current)], maxY, maxX)
  {
    var cost' := cost[n := cost[current] + 1];
    var cameFrom' := cameFrom[n := Some(current)];
    assert cost'.Keys == cost.Keys + {n};
    assert |cost.Keys| <= |cost'.Keys|;
    if n !in cost {
      assert |cost'.Keys| == |cost.Keys| + 1;
    }
    forall p | p in cameFrom' && p != start ensures Step(p, cost', cameFrom', maxY, maxX) {
      if p != n {
        assert Step(p, cost, cameFrom, maxY, maxX);
      }
    }
  }

  // ---------------------------------------------------------------------------
  // Termination of the search

  /** Every position the search may explore: the screen, and the start (which may lie off it). */
  ghost function Row(y: int, w: nat): (r: seq<Pos>)
    ensures forall p :: p in r <==> p.y == y && 0 <= p.x < w
  {
    if w == 0 then [] else Row(y, w - 1) + [Pos(y, w - 1)]
  }

  ghost function Rows(h: nat, w: nat): (r: seq<Pos>)
    ensures forall p :: p in r <==> 0 <= p.y < h && 0 <= p.x < w
  {
    if h == 0 then [] else Rows(h - 1, w) + Row(h - 1, w)
  }

  ghost function Universe(start: Pos, maxY: int, maxX: int): (u: seq<Pos>)
    ensures forall p :: p in u <==> p == start || InGrid(p, maxY, maxX)
  {
    Rows(if maxY >= 0 then maxY + 1 else 0, if maxX >= 0 then maxX + 1 else 0) + [start]
  }

  /** A position's share of the measure: its cost once explored, `top` before. */
  ghost function Weight(cost: map<Pos, nat>, p: Pos, top: nat): nat {
    if p in cost then cost[p] else top
  }

  ghost function Potential(u: seq<Pos>, cost: map<Pos, nat>, top: nat): nat {
    if u == [] then 0 else Potential(u[..|u| - 1], cost, top) + Weight(cost, u[|u| - 1], top)
  }

  /** Lowering one position's weight never raises the measure, and lowers it when the position counts. */
  lemma {:induction false} PotentialDrops(u: seq<Pos>, cost: map<Pos, nat>, top: nat, p: Pos, c: nat)
    requires c < Weight(cost, p, top)
    ensures Potential(u, cost[p := c], top) <= Potential(u, cost, top)
    ensures p in u ==> Potential(u, cost[p := c], top) < Potential(u, cost, top)
  {
    if u != [] {
      var pre := u[..|u| - 1];
      PotentialDrops(pre, cost, top, p, c);
      if p in u && u[|u| - 1] != p {
        assert p in pre by {
          var i :| 0 <= i < |u| && u[i] == p;
          assert pre[i] == p;
        }
      }
    }
  }

  /** A set drawn from a sequence has no more elements than the sequence. */
  lemma {:induction false} FewerKeys(keys: set<Pos>, u: seq<Pos>)
    requires forall p :: p in keys ==> p in u
    ensures |keys| <= |u|
  {
    if u != [] {
      var x := u[|u| - 1];
      var pre := u[..|u| - 1];
      forall p | p in keys - {x} ensures p in pre {
        var i :| 0 <= i < |u| && u[i] == p;
        assert pre[i] == p;
      }
      FewerKeys(keys - {x}, pre);
    }
  }

  // ---------------------------------------------------------------------------
  // The search

  /**
   * One pass of the inner loop of termgame.py:365-374: each neighbour of `current` that is
   * new, or that `current` reaches more cheaply, gets the lower cost, is queued, and
   * records `current` as where it came from.
   */
  method Visit(start: Pos, current: Pos, maxY: int, maxX: int, ghost u: seq<Pos>,
               cost0: map<Pos, nat>, cameFrom0: map<Pos, Option<Pos>>, frontier0: seq<Pos>)
    returns (cost: map<Pos, nat>, cameFrom: map<Pos, Option<Pos>>, frontier: seq<Pos>)
    requires u == Universe(start, maxY, maxX)
    requires Tree(start, cost0, cameFrom0, maxY, maxX) && current in cost0
    requires Queued(frontier0, cost0) && Sorted(frontier0)
    ensures Tree(start, cost, cameFrom, maxY, maxX)
    ensures Queued(frontier, cost) && Sorted(frontier)
    ensures cost0.Keys <= cost.Keys && multiset(frontier0) <= multiset(frontier)
    ensures NewQueued(cost0, cost, frontier)
    ensures Done(current, cost, maxY, maxX)
    ensures Potential(u, cost, |u|) < Potential(u, cost0, |u|) || (cost == cost0 && frontier == frontier0)
  {
    var ns := GetNeighbors(current, maxY, maxX);
    cost, cameFrom, frontier := cost0, cameFrom0, frontier0;
    for j := 0 to |ns|
      invariant Visiting(start, current, maxY, maxX, u, cost0, frontier0, cost, cameFrom, frontier)
      invariant Queued(ns[..j], cost)
    {
      ghost var keys := cost.Keys;
      var n := ns[j];
      if n !in cost || cost[current] + 1 < cost[n] {
        Relax(start, current, maxY, maxX, u, cost0, frontier0, cost, cameFrom, frontier, n);
      }
      cost, cameFrom, frontier := VisitNeighbor(current, cost, cameFrom, frontier, n);
      QueuedExtend(ns, j, keys, cost);
    }
    assert ns[..|ns|] == ns;
  }

  /**
   * The body of the inner loop (termgame.py:366-374) for one neighbour `n` of `current`:
   * a new neighbour, or one that `current` reaches more cheaply, gets the lower cost, is
   * queued and records `current`; any other neighbour changes nothing. `Relax` states what
   * this keeps.
   */
  method VisitNeighbor(current: Pos, cost: map<Pos, nat>, cameFrom: map<Pos, Option<Pos>>, frontier: seq<Pos>, n: Pos)
    returns (cost': map<Pos, nat>, cameFrom': map<Pos, Option<Pos>>, frontier': seq<Pos>)
    requires current in cost
    ensures n in cost' && cost.Keys <= cost'.Keys
    ensures n !in cost || cost[current] + 1 < cost[n] ==>
      cost' == cost[n := cost[current] + 1] && cameFrom' == cameFrom[n := Some(current)] && frontier' == Insert(frontier, n)
    ensures n in cost && cost[current] + 1 >= cost[n] ==>
      cost' == cost && cameFrom' == cameFrom && frontier' == frontier
  {
    var newCost := cost[current] + 1;
    if n !in cost || newCost < cost[n] {
      cost' := cost[n := newCost];
      cameFrom' := cameFrom[n := Some(current)];
      frontier' := Insert(frontier, n);
    } else {
      cost', cameFrom', frontier' := cost, cameFrom, frontier;
    }
  }

  /** The neighbours visited so far, one more. */
  lemma QueuedExtend(ns: seq<Pos>, j: nat, keys: set<Pos>, cost: map<Pos, nat>)
    requires j < |ns| && forall p :: p in ns[..j] ==> p in keys
    requires keys <= cost.Keys && ns[j] in cost
    ensures Queued(ns[..j + 1], cost)
  {
    assert ns[..j + 1] == ns[..j] + [ns[j]];
  }

  /** What holds between two neighbours in `Visit`. */
  ghost predicate Visiting(start: Pos, current: Pos, maxY: int, maxX: int, u: seq<Pos>,
                           cost0: map<Pos, nat>, frontier0: seq<Pos>,
                           cost: map<Pos, nat>, cameFrom: map<Pos, Option<Pos>>, frontier: seq<Pos>) {
    && Tree(start, cost, cameFrom, maxY, maxX)
    && current in cost0 && current in cost && cost[current] == cost0[current]
    && Queued(frontier, cost) && Sorted(frontier)
    && cost0.Keys <= cost.Keys && multiset(frontier0) <= multiset(frontier)
    && NewQueued(cost0, cost, frontier)
    && (Potential(u, cost, |u|) < Potential(u, cost0, |u|) || (cost == cost0 && frontier == frontier0))
  }

  /** Positions explored since `cost0` are all queued. */
  ghost predicate NewQueued(cost0: map<Pos, nat>, cost: map<Pos, nat>, frontier: seq<Pos>) {
    forall p :: p in cost && p !in cost0 ==> p in frontier
  }

  /** Every position of `Insert(q, p)` is `p` or was in `q`, and the other way round. */
  lemma InsertMembers(q: seq<Pos>, p: Pos)
    ensures forall x :: x in Insert(q, p) <==> x in q || x == p
  {
    forall x ensures x in Insert(q, p) <==> x in q || x == p {
      assert x in Insert(q, p) <==> x in multiset(Insert(q, p));
      assert x in q <==> x in multiset(q);
    }
  }

  /** Relaxing one neighbour of `current` keeps what holds between neighbours. */
  lemma Relax(start: Pos, current: Pos, maxY: int, maxX: int, u: seq<Pos>,
              cost0: map<Pos, nat>, frontier0: seq<Pos>,
              cost: map<Pos, nat>, cameFrom: map<Pos, Option<Pos>>, frontier: seq<Pos>, n: Pos)
    requires u == Universe(start, maxY, maxX)
    requires Visiting(start, current, maxY, maxX, u, cost0, frontier0, cost, cameFrom, frontier)
    requires InGrid(n, maxY, maxX) && Adjacent(current, n)
    requires n !in cost || cost[current] + 1 < cost[n]
    ensures Visiting(start, current, maxY, maxX, u, cost0, frontier0,
                     cost[n := cost[current] + 1], cameFrom[n := Some(current)], Insert(frontier, n))
  {
    var cost' := cost[n := cost[current] + 1];
    var frontier' := Insert(frontier, n);
    RelaxTree(start, cost, cameFrom, maxY, maxX, current, n);
    Descends(start, cost, cameFrom, maxY, maxX, u, current, n);
    InsertSorted(frontier, n);
    InsertMembers(frontier, n);
    assert current != n;
    assert Queued(frontier', cost');
    assert NewQueued(cost0, cost', frontier');
  }

  /** Relaxing a neighbour strictly lowers the measure. */
  lemma Descends(start: Pos, cost: map<Pos, nat>, cameFrom: map<Pos, Option<Pos>>, maxY: int, maxX: int,
                 u: seq<Pos>, current: Pos, n: Pos)
    requires u == Universe(start, maxY, maxX)
    requires Tree(start, cost, cameFrom, maxY, maxX) && current in cost
    requires InGrid(n, maxY, maxX) && (n !in cost || cost[current] + 1 < cost[n])
    ensures Potential(u, cost[n := cost[current] + 1], |u|) < Potential(u, cost, |u|)
  {
    if n !in cost {
      RoomForNew(start, cost, cameFrom, maxY, maxX, u, n);
    }
    PotentialDrops(u, cost, |u|, n, cost[current] + 1);
  }

  /** While a screen position is unexplored, fewer positions are explored than the measure's top weight. */
  lemma RoomForNew(start: Pos, cost: map<Pos, nat>, cameFrom: map<Pos, Option<Pos>>, maxY: int, maxX: int,
                   u: seq<Pos>, n: Pos)
    requires u == Universe(start, maxY, maxX)
    requires Tree(start, cost, cameFrom, maxY, maxX)
    requires InGrid(n, maxY, maxX) && n !in cost
    ensures |cost.Keys| < |u|
  {
    KeysInUniverse(start, cost, cameFrom, maxY, maxX);
    FewerKeys(cost.Keys + {n}, u);
    assert |cost.Keys + {n}| == |cost.Keys| + 1;
  }

  /** Every explored position is the start or on the screen. */
  lemma KeysInUniverse(start: Pos, cost: map<Pos, nat>, cameFrom: map<Pos, Option<Pos>>, maxY: int, maxX: int)
    requires Tree(start, cost, cameFrom, maxY, maxX)
    ensures forall p :: p in cost ==> p in Universe(start, maxY, maxX)
  {
    forall p | p in cost ensures p in Universe(start, maxY, maxX) {
      if p != start {
        assert Step(p, cost, cameFrom, maxY, maxX);
      }
    }
  }

  /** Explored positions whose neighbours are all explored reach every screen position from the start's side. */
  lemma {:induction false} Walk(cost: map<Pos, nat>, maxY: int, maxX: int, p: Pos, t: Pos)
    requires forall q :: q in cost ==> Done(q, cost, maxY, maxX)
    requires p in cost && InGrid(p, maxY, maxX) && InGrid(t, maxY, maxX)
    ensures t in cost
    decreases (if p.y < t.y then t.y - p.y else p.y - t.y) + (if p.x < t.x then t.x - p.x else p.x - t.x)
  {
    if p != t {
      var q := if p.y < t.y then Pos(p.y + 1, p.x)
        else if p.y > t.y then Pos(p.y - 1, p.x)
        else if p.x < t.x then Pos(p.y, p.x + 1)
        else Pos(p.y, p.x - 1);
      assert Done(p, cost, maxY, maxX);
      assert q in Neighbors(p, maxY, maxX);
      Walk(cost, maxY, maxX, q, t);
    }
  }

  /** After the least queued position has been visited, every explored position is again queued or done. */
  lemma StillClosed(before: map<Pos, nat>, queued: seq<Pos>, cost: map<Pos, nat>, frontier: seq<Pos>, maxY: int, maxX: int)
    requires Closed(before, queued, maxY, maxX) && queued != []
    requires before.Keys <= cost.Keys && multiset(queued[1..]) <= multiset(frontier)
    requires NewQueued(before, cost, frontier) && Done(queued[0], cost, maxY, maxX)
    ensures Closed(cost, frontier, maxY, maxX)
  {
    forall p | p in cost ensures p in frontier || Done(p, cost, maxY, maxX) {
      if p in before && p != queued[0] {
        if p in queued {
          var i :| 0 <= i < |queued| && queued[i] == p;
          assert queued[1..][i - 1] == p;
          assert p in multiset(queued[1..]);
        } else {
          assert Done(p, before, maxY, maxX);
        }
      }
    }
  }

  /**
   * The main loop of termgame.py:355-374: take the least queued position; stop at the
   * target; otherwise visit its neighbours. When start and target are both on the screen
   * the target is always explored, since the screen is connected.
   */
  method Explore(start: Pos, target: Pos, maxY: int, maxX: int)
    returns (cost: map<Pos, nat>, cameFrom: map<Pos, Option<Pos>>)
    ensures Tree(start, cost, cameFrom, maxY, maxX)
    ensures InGrid(start, maxY, maxX) && InGrid(target, maxY, maxX) ==> target in cost
  {
    ghost var u := Universe(start, maxY, maxX);
    var frontier := [start];
    cameFrom := map[start := None];
    cost := map[start := 0];
    var found := false;
    while !found && frontier != []
      invariant Tree(start, cost, cameFrom, maxY, maxX)
      invariant Queued(frontier, cost) && Sorted(frontier)
      invariant found ==> target in cost
      invariant !found ==> Closed(cost, frontier, maxY, maxX)
      decreases Potential(u, cost, |u|), |frontier|
    {
      var current := frontier[0];
      ghost var before, queued := cost, frontier;
      frontier := frontier[1..];
      if current == target {
        found := true;
      } else {
        cost, cameFrom, frontier := Visit(start, current, maxY, maxX, u, cost, cameFrom, frontier);
        StillClosed(before, queued, cost, frontier, maxY, maxX);
      }
    }
    if !found && InGrid(start, maxY, maxX) && InGrid(target, maxY, maxX) {
      Walk(cost, maxY, maxX, start, target);
    }
  }

  // ---------------------------------------------------------------------------
  // Reading the path back

  /** `path.reverse()`. */
  function Reverse(s: seq<Pos>): (r: seq<Pos>)
    ensures |r| == |s|
    ensures forall i :: 0 <= i < |s| ==> r[i] == s[|s| - 1 - i]
  {
    if s == [] then [] else Reverse(s[1..]) + [s[0]]
  }

  /**
   * A path as `pathfind` promises it: empty exactly when the target is the start;
   * otherwise it starts next to the start, moves one step at a time, ends at the target,
   * stays on the screen and never returns to the start.
   */
  ghost predicate IsPath(start: Pos, target: Pos, path: seq<Pos>, maxY: int, maxX: int) {
    && (path == [] <==> target == start)
    && (path != [] ==> Adjacent(start, path[0]) && path[|path| - 1] == target)
    && (forall i :: 0 <= i < |path| ==> InGrid(path[i], maxY, maxX) && path[i] != start)
    && (forall i :: 0 < i < |path| ==> Adjacent(path[i - 1], path[i]))
  }

  /**
   * The reconstruction of termgame.py:375-382: from the target back along `came_from` to
   * the start, then reversed. An unexplored target raises `KeyError`.
   */
  method Reconstruct(start: Pos, target: Pos, cost: map<Pos, nat>, cameFrom: map<Pos, Option<Pos>>, maxY: int, maxX: int)
    returns (r: Result<seq<Pos>, PathError>)
    requires Tree(start, cost, cameFrom, maxY, maxX)
    ensures r.Err? <==> target !in cost
    ensures r.Err? ==> r.error == KeyError
    ensures r.Ok? ==> IsPath(start, target, r.value, maxY, maxX)
  {
    var current := target;
    var back: seq<Pos> := [];
    while current != start
      invariant current in cost || (back == [] && current == target)
      invariant target in cost ==> current in cost
      invariant target !in cost ==> back == []
      invariant back == [] ==> current == target
      invariant back != [] ==> back[0] == target && Adjacent(current, back[|back| - 1])
      invariant forall i :: 0 <= i < |back| ==> InGrid(back[i], maxY, maxX) && back[i] != start
      invariant forall i :: 0 < i < |back| ==> Adjacent(back[i], back[i - 1])
      decreases if current in cost then cost[current] else 0
    {
      back := back + [current];
      if current !in cameFrom {
        return Err(KeyError);
      }
      assert Step(current, cost, cameFrom, maxY, maxX);
      current := cameFrom[current].value;
    }
    r := Ok(Reverse(back));
  }

  /**
   * `pathfind` from a recorded position to a target. With no start position the search
   * fails unpacking it (`TypeError`) unless the target is missing too, in which case the
   * first position taken is the target and the path is empty. With no target the first
   * new neighbour fails computing the discarded priority (`TypeError`); with no
   * neighbour at all the reconstruction fails on the missing key.
   */
  method Pathfind(start: Key, target: Key, maxY: int, maxX: int) returns (r: Result<seq<Pos>, PathError>)
    ensures start.None? ==> r == (if target.None? then Ok([]) else Err(TypeError))
    ensures start.Some? && target.None? ==>
      r == Err(if Neighbors(start.value, maxY, maxX) == [] then KeyError else TypeError)
    ensures start.Some? && target.Some? && r.Ok? ==> IsPath(start.value, target.value, r.value, maxY, maxX)
    ensures start.Some? && target.Some? && r.Err? ==> r.error == KeyError
    ensures start.Some? && target.Some? && target != start && !InGrid(target.value, maxY, maxX) ==> r.Err?
    ensures start.Some? && target.Some? && InGrid(start.value, maxY, maxX) && InGrid(target.value, maxY, maxX) ==> r.Ok?
  {
    if start.None? {
      return if target.None? then Ok([]) else Err(TypeError);
    }
    if target.None? {
      var ns := GetNeighbors(start.value, maxY, maxX);
      return Err(if ns == [] then KeyError else TypeError);
    }
    var cost, cameFrom := Explore(start.value, target.value, maxY, maxX);
    if target != start && !InGrid(target.value, maxY, maxX) {
      assert !Step(target.value, cost, cameFrom, maxY, maxX);
    }
    r := Reconstruct(start.value, target.value, cost, cameFrom, maxY, maxX);
  }
}
