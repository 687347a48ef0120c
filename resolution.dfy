/**
 * The movement tick of the engine (`move` and `__move_objects`) as functions over the
 * index: the relocation requests, the rigidbody conflict resolver, and the write-back of
 * bucket positions into the objects.
 */
module Resolution {
  import opened Wrappers
  import opened GameObjects
  import opened Lists
  import opened Occupancy
  import opened Conflicts
  import opened CollisionReports

  /** One `move_requests` entry: the object and the position it asked for. */
  datatype Request = Request(id: Id, target: Key)

  /** The position an object records itself; the resolver reads it but never updates it. */
  function RecordedKey(ents: map<Id, GameObject>, id: Id): Key {
    if id in ents then ents[id].position else None
  }

  /** The collision layer an object records itself. */
  function LayerOf(ents: map<Id, GameObject>, id: Id): int {
    if id in ents then ents[id].collision.layer else 0
  }

  /** `remove_obj(layer, from, id)` followed by `add_obj(layer, to, id)`. */
  function Shift(ix: Index, l: int, from: Key, to: Key, id: Id): Index {
    Add(Remove(ix, l, from, id), l, to, id)
  }

  /**
   * Shifting an object that sits in bucket `(l, from)` moves exactly one of its occurrences
   * to bucket `(l, to)`; shifting one that does not only adds the occurrence at `to`.
   */
  lemma ShiftMoves(ix: Index, l: int, from: Key, to: Key, id: Id)
    requires WellFormed(ix)
    ensures WellFormed(Shift(ix, l, from, to, id))
    ensures id in Bucket(ix, l, from) ==>
      multiset(Occ(Shift(ix, l, from, to, id))) == multiset(Occ(ix)) - multiset{Slot(l, from, id)} + multiset{Slot(l, to, id)}
    ensures id !in Bucket(ix, l, from) ==>
      multiset(Occ(Shift(ix, l, from, to, id))) == multiset(Occ(ix)) + multiset{Slot(l, to, id)}
  {
    var mid := Remove(ix, l, from, id);
    SetBucketWellFormed(ix, l, from, RemoveFirst(Bucket(ix, l, from), id));
    SetBucketWellFormed(mid, l, to, Bucket(mid, l, to) + [id]);
    RemoveOcc(ix, l, from, id);
    AddOcc(mid, l, to, id);
  }

  /** One popped request: the object's occurrence goes from its recorded position to the target. */
  function Relocate(ix: Index, ents: map<Id, GameObject>, q: Request): Index {
    Shift(ix, LayerOf(ents, q.id), RecordedKey(ents, q.id), q.target, q.id)
  }

  /** The request list is popped from its end until it is empty (termgame.py:281-285). */
  function Drain(ix: Index, ents: map<Id, GameObject>, reqs: seq<Request>): Index
    decreases |reqs|
  {
    if reqs == [] then ix
    else Drain(Relocate(ix, ents, reqs[|reqs| - 1]), ents, reqs[..|reqs| - 1])
  }

  /** The ids that have a request in the list. */
  function RequestedIds(reqs: seq<Request>): set<Id> {
    set q | q in reqs :: q.id
  }

  /**
   * Draining keeps the index well formed and leaves every occurrence of an object
   * without a request where it was.
   */
  lemma {:induction false} DrainKeepsOthers(ix: Index, ents: map<Id, GameObject>, reqs: seq<Request>)
    requires WellFormed(ix)
    ensures WellFormed(Drain(ix, ents, reqs))
    ensures forall s: Slot :: s.id !in RequestedIds(reqs) ==> multiset(Occ(Drain(ix, ents, reqs)))[s] == multiset(Occ(ix))[s]
    decreases |reqs|
  {
    if reqs != [] {
      var q := reqs[|reqs| - 1];
      var rest := reqs[..|reqs| - 1];
      var ix' := Relocate(ix, ents, q);
      ShiftMoves(ix, LayerOf(ents, q.id), RecordedKey(ents, q.id), q.target, q.id);
      DrainKeepsOthers(ix', ents, rest);
      assert q.id in RequestedIds(reqs);
      forall i: Id | i in RequestedIds(rest) ensures i in RequestedIds(reqs) {
        var r :| r in rest && r.id == i;
        assert r in reqs;
      }
    }
  }

  /** An occurrence whose bucket differs from the position its object records. */
  predicate Off(ents: map<Id, GameObject>, s: Slot) {
    s.key != RecordedKey(ents, s.id)
  }

  /** How many occurrences are off their object's recorded position. */
  function CountOff(occ: seq<Slot>, ents: map<Id, GameObject>): nat {
    if occ == [] then 0
    else CountOff(occ[..|occ| - 1], ents) + (if Off(ents, occ[|occ| - 1]) then 1 else 0)
  }

  /** The termination measure of the resolver. */
  function OffCount(ix: Index, ents: map<Id, GameObject>): nat {
    CountOff(Occ(ix), ents)
  }

  lemma {:induction false} CountOffAppend(a: seq<Slot>, b: seq<Slot>, ents: map<Id, GameObject>)
    ensures CountOff(a + b, ents) == CountOff(a, ents) + CountOff(b, ents)
    decreases |b|
  {
    if b == [] {
      assert a + b == a;
    } else {
      var b' := b[..|b| - 1];
      assert (a + b)[..|a + b| - 1] == a + b';
      CountOffAppend(a, b', ents);
    }
  }

  /** The count depends only on which occurrences there are, not on their order. */
  lemma {:induction false} CountOffPerm(a: seq<Slot>, b: seq<Slot>, ents: map<Id, GameObject>)
    requires multiset(a) == multiset(b)
    ensures CountOff(a, ents) == CountOff(b, ents)
    decreases |a|
  {
    if a == [] {
      assert |b| == |multiset(b)| == 0;
    } else {
      var x := a[|a| - 1];
      var a' := a[..|a| - 1];
      assert a == a' + [x];
      assert multiset(a') == multiset(a) - multiset{x};
      assert x in multiset(b);
      CountOffRemove(b, x, ents);
      CountOffPerm(a', RemoveFirst(b, x), ents);
    }
  }

  /** Taking one occurrence out of a sequence takes its share out of the count. */
  lemma CountOffRemove(b: seq<Slot>, x: Slot, ents: map<Id, GameObject>)
    requires x in b
    ensures CountOff(b, ents) == CountOff(RemoveFirst(b, x), ents) + (if Off(ents, x) then 1 else 0)
  {
    var i := IndexOf(b, x);
    assert b == b[..i] + [x] + b[i + 1..];
    assert RemoveFirst(b, x) == b[..i] + b[i + 1..];
    CountOffAppend(b[..i] + [x], b[i + 1..], ents);
    CountOffAppend(b[..i], [x], ents);
    CountOffAppend(b[..i], b[i + 1..], ents);
    assert [x][..0] == [];
  }

  /** How many occurrences belong to the given object. */
  function IdCount(occ: seq<Slot>, id: Id): nat {
    if occ == [] then 0
    else IdCount(occ[..|occ| - 1], id) + (if occ[|occ| - 1].id == id then 1 else 0)
  }

  lemma {:induction false} IdCountAppend(a: seq<Slot>, b: seq<Slot>, id: Id)
    ensures IdCount(a + b, id) == IdCount(a, id) + IdCount(b, id)
    decreases |b|
  {
    if b == [] {
      assert a + b == a;
    } else {
      var b' := b[..|b| - 1];
      assert (a + b)[..|a + b| - 1] == a + b';
      IdCountAppend(a, b', id);
    }
  }

  /** Taking one occurrence out of a sequence takes its share out of each object's count. */
  lemma IdCountRemove(b: seq<Slot>, x: Slot, id: Id)
    requires x in b
    ensures IdCount(b, id) == IdCount(RemoveFirst(b, x), id) + (if x.id == id then 1 else 0)
  {
    var i := IndexOf(b, x);
    assert b == b[..i] + [x] + b[i + 1..];
    assert RemoveFirst(b, x) == b[..i] + b[i + 1..];
    IdCountAppend(b[..i] + [x], b[i + 1..], id);
    IdCountAppend(b[..i], [x], id);
    IdCountAppend(b[..i], b[i + 1..], id);
    assert [x][..0] == [];
  }

  /** Each object's count depends only on which occurrences there are, not on their order. */
  lemma {:induction false} IdCountPerm(a: seq<Slot>, b: seq<Slot>, id: Id)
    requires multiset(a) == multiset(b)
    ensures IdCount(a, id) == IdCount(b, id)
    decreases |a|
  {
    if a == [] {
      assert |b| == |multiset(b)| == 0;
    } else {
      var x := a[|a| - 1];
      var a' := a[..|a| - 1];
      assert a == a' + [x];
      assert multiset(a') == multiset(a) - multiset{x};
      assert x in multiset(b);
      IdCountRemove(b, x, id);
      IdCountPerm(a', RemoveFirst(b, x), id);
    }
  }

  /** `revert`: the member leaves the conflict cell for its recorded position (termgame.py:296-305). */
  function Revert(ix: Index, c: Entry, id: Id, ents: map<Id, GameObject>): Index {
    Shift(ix, c.layer, c.key, RecordedKey(ents, id), id)
  }

  /** Reverting an off member moves its occurrence home, so exactly one fewer occurrence is off. */
  lemma RevertMoves(ix: Index, c: Entry, id: Id, ents: map<Id, GameObject>)
    requires WellFormed(ix)
    requires id in Bucket(ix, c.layer, c.key) && c.key != RecordedKey(ents, id)
    ensures WellFormed(Revert(ix, c, id, ents))
    ensures multiset(Occ(Revert(ix, c, id, ents))) ==
      multiset(Occ(ix)) - multiset{Slot(c.layer, c.key, id)} + multiset{Slot(c.layer, RecordedKey(ents, id), id)}
    ensures |Occ(Revert(ix, c, id, ents))| == |Occ(ix)|
    ensures OffCount(Revert(ix, c, id, ents), ents) + 1 == OffCount(ix, ents)
  {
    var off := Slot(c.layer, c.key, id);
    var home := Slot(c.layer, RecordedKey(ents, id), id);
    var after := Occ(Revert(ix, c, id, ents));
    ShiftMoves(ix, c.layer, c.key, RecordedKey(ents, id), id);
    OccHasSlot(ix, c.layer, c.key, id);
    assert multiset(after + [off]) == multiset(Occ(ix) + [home]);
    CountOffPerm(after + [off], Occ(ix) + [home], ents);
    assert |after + [off]| == |Occ(ix) + [home]| by {
      assert |multiset(after + [off])| == |after + [off]|;
      assert |multiset(Occ(ix) + [home])| == |Occ(ix) + [home]|;
    }
  }

  /** An object in a bucket appears in the iteration with that bucket's key. */
  lemma OccHasSlot(ix: Index, l: int, k: Key, id: Id)
    requires id in Bucket(ix, l, k)
    ensures Slot(l, k, id) in multiset(Occ(ix))
  {
    var a, b := OccSetBucket(ix, l, k, Bucket(ix, l, k));
    var j := IndexOf(Bucket(ix, l, k), id);
    assert SlotsOf(l, k, Bucket(ix, l, k))[j] == Slot(l, k, id);
    assert Occ(ix)[|a| + j] == Slot(l, k, id);
  }

  /** Position of the first member whose recorded position differs from the conflict cell. */
  function FirstOff(members: seq<Id>, ents: map<Id, GameObject>, key: Key): (k: nat)
    ensures k <= |members|
    ensures k < |members| ==> RecordedKey(ents, members[k]) != key
    ensures forall j :: 0 <= j < k ==> RecordedKey(ents, members[j]) == key
  {
    if members == [] then 0
    else if RecordedKey(ents, members[0]) != key then 0
    else 1 + FirstOff(members[1..], ents, key)
  }

  /** When no member is off, every member records the given position. */
  lemma FirstOffNone(members: seq<Id>, ents: map<Id, GameObject>, key: Key)
    requires FirstOff(members, ents, key) == |members|
    ensures forall id :: id in members ==> RecordedKey(ents, id) == key
  {
    forall id | id in members ensures RecordedKey(ents, id) == key {
      var j :| 0 <= j < |members| && members[j] == id;
    }
  }

  /** What the resolver fetches: the first rigidbody conflict, no filters (termgame.py:286, 307). */
  function Fetch(ix: Index, ents: map<Id, GameObject>): Option<Entry> {
    GetRbCollisions(ix, None, None, true, ents)
  }

  /**
   * The loop's current conflict: the fetch of the current index, or nothing because that
   * fetch equals a conflict already found unresolvable (termgame.py:307-309).
   */
  predicate Pending(ix: Index, ents: map<Id, GameObject>, c: Option<Entry>, unres: seq<Entry>) {
    c == Fetch(ix, ents) || (c.None? && Fetch(ix, ents).Some? && Fetch(ix, ents).value in unres)
  }

  /** A conflict none of whose members can go back: each one records the conflict cell itself. */
  predicate Stuck(c: Entry, ents: map<Id, GameObject>) {
    forall id :: id in c.objs ==> RecordedKey(ents, id) == c.key
  }

  /** The state the resolution loop leaves behind. */
  datatype Outcome = Outcome(index: Index, reports: Reports, unresolvable: seq<Entry>)

  /**
   * The repair part of one round (termgame.py:296-306): revert the first off member of the
   * conflict when there is one, otherwise mark the conflict unresolvable.
   */
  function Repair(ix: Index, ents: map<Id, GameObject>, conflict: Entry, unres: seq<Entry>): (Index, seq<Entry>) {
    var k := FirstOff(conflict.objs, ents, conflict.key);
    if k < |conflict.objs| then (Revert(ix, conflict, conflict.objs[k], ents), unres)
    else (ix, unres + [conflict])
  }

  /** The refetch that ends a round (termgame.py:307-309). */
  function Refetch(ix: Index, ents: map<Id, GameObject>, unres: seq<Entry>): Option<Entry> {
    var next := Fetch(ix, ents);
    if next.Some? && next.value in unres then None else next
  }

  /**
   * One round makes progress: either it reverts a member, putting one more occurrence home,
   * or it changes nothing in the index and the refetch finds the conflict it just marked.
   */
  lemma RepairProgress(ix: Index, ents: map<Id, GameObject>, c: Option<Entry>, unres: seq<Entry>)
    requires WellFormed(ix) && c.Some? && c == Fetch(ix, ents)
    ensures var (ix', unres') := Repair(ix, ents, c.value, unres);
      && WellFormed(ix')
      && unres <= unres'
      && |Occ(ix')| == |Occ(ix)|
      && ((ix' == ix && unres' == unres + [c.value] && Stuck(c.value, ents) && Refetch(ix', ents, unres').None?)
          || OffCount(ix', ents) + 1 == OffCount(ix, ents))
  {
    var conflict := c.value;
    FetchedConflict(ix, ents);
    var k := FirstOff(conflict.objs, ents, conflict.key);
    if k < |conflict.objs| {
      RevertMoves(ix, conflict, conflict.objs[k], ents);
    } else {
      FirstOffNone(conflict.objs, ents, conflict.key);
    }
  }

  /**
   * The resolution loop of termgame.py:288-310, from the current conflict on: record the
   * conflict, repair, refetch. It terminates because every revert puts one more occurrence
   * home, and a round without a revert leaves the index as it was, so the refetch yields
   * the conflict just marked unresolvable and the loop stops.
   */
  function Resolve(ix: Index, ents: map<Id, GameObject>, c: Option<Entry>, rep: Reports, unres: seq<Entry>): (o: Outcome)
    requires WellFormed(ix) && Pending(ix, ents, c, unres)
    ensures WellFormed(o.index)
    ensures Fetch(o.index, ents).None? || Fetch(o.index, ents).value in o.unresolvable
    decreases OffCount(ix, ents), if c.Some? then 1 else 0
  {
    if c.None? then Outcome(ix, rep, unres)
    else
      RepairProgress(ix, ents, c, unres);
      var (ix', unres') := Repair(ix, ents, c.value, unres);
      Resolve(ix', ents, Refetch(ix', ents, unres'), Record(rep, c.value.objs), unres')
  }

  /** One round of `Resolve`, unfolded. */
  lemma ResolveUnfold(ix: Index, ents: map<Id, GameObject>, c: Option<Entry>, rep: Reports, unres: seq<Entry>)
    requires WellFormed(ix) && c.Some? && c == Fetch(ix, ents)
    ensures var (ix', unres') := Repair(ix, ents, c.value, unres);
      && WellFormed(ix')
      && Pending(ix', ents, Refetch(ix', ents, unres'), unres')
      && Resolve(ix, ents, c, rep, unres) == Resolve(ix', ents, Refetch(ix', ents, unres'), Record(rep, c.value.objs), unres')
  {
    RepairProgress(ix, ents, c, unres);
  }

  /** The unresolvable list only grows, and it only ever receives stuck conflicts. */
  lemma {:induction false} ResolveUnresolvable(ix: Index, ents: map<Id, GameObject>, c: Option<Entry>, rep: Reports, unres: seq<Entry>)
    requires WellFormed(ix) && Pending(ix, ents, c, unres)
    ensures var o := Resolve(ix, ents, c, rep, unres);
      && unres <= o.unresolvable
      && forall u :: u in o.unresolvable ==> u in unres || Stuck(u, ents)
    decreases OffCount(ix, ents), if c.Some? then 1 else 0
  {
    if c.Some? {
      RepairProgress(ix, ents, c, unres);
      ResolveUnfold(ix, ents, c, rep, unres);
      var (ix', unres') := Repair(ix, ents, c.value, unres);
      ResolveUnresolvable(ix', ents, Refetch(ix', ents, unres'), Record(rep, c.value.objs), unres');
      assert forall u :: u in unres' ==> u in unres || u == c.value;
    }
  }

  /**
   * Occurrences that resolution may not create or destroy: every object keeps its number
   * of occurrences, no occurrence at its object's recorded position leaves, and no
   * occurrence off it arrives.
   */
  ghost predicate KeepsOccurrences(before: seq<Slot>, after: seq<Slot>, ents: map<Id, GameObject>) {
    && |after| == |before|
    && (forall i :: IdCount(after, i) == IdCount(before, i))
    && (forall s :: !Off(ents, s) ==> multiset(before)[s] <= multiset(after)[s])
    && (forall s :: Off(ents, s) ==> multiset(after)[s] <= multiset(before)[s])
  }

  /** One repair keeps the occurrences in that sense. */
  lemma RepairKeeps(ix: Index, ents: map<Id, GameObject>, c: Option<Entry>, unres: seq<Entry>)
    requires WellFormed(ix) && c.Some? && c == Fetch(ix, ents)
    ensures KeepsOccurrences(Occ(ix), Occ(Repair(ix, ents, c.value, unres).0), ents)
  {
    var conflict := c.value;
    FetchedConflict(ix, ents);
    var k := FirstOff(conflict.objs, ents, conflict.key);
    if k < |conflict.objs| {
      RevertKeeps(ix, conflict, conflict.objs[k], ents);
    } else {
      KeepsItself(Occ(ix), ents);
    }
  }

  lemma KeepsItself(occ: seq<Slot>, ents: map<Id, GameObject>)
    ensures KeepsOccurrences(occ, occ, ents)
  {
  }

  /**
   * A revert trades one occurrence off its object's recorded position for one at it, so
   * it keeps the occurrences in that sense.
   */
  lemma RevertKeeps(ix: Index, c: Entry, id: Id, ents: map<Id, GameObject>)
    requires WellFormed(ix)
    requires id in Bucket(ix, c.layer, c.key) && c.key != RecordedKey(ents, id)
    ensures KeepsOccurrences(Occ(ix), Occ(Revert(ix, c, id, ents)), ents)
  {
    var off := Slot(c.layer, c.key, id);
    var home := Slot(c.layer, RecordedKey(ents, id), id);
    var after := Occ(Revert(ix, c, id, ents));
    RevertMoves(ix, c, id, ents);
    OccHasSlot(ix, c.layer, c.key, id);
    TradeKeeps(Occ(ix), after, off, home, ents);
  }

  /**
   * Trading an occurrence off its object's recorded position for one of the same object
   * at it keeps the occurrences in the sense of `KeepsOccurrences`.
   */
  lemma TradeKeeps(before: seq<Slot>, after: seq<Slot>, off: Slot, home: Slot, ents: map<Id, GameObject>)
    requires off.id == home.id && Off(ents, off) && !Off(ents, home) && off in multiset(before)
    requires multiset(after) == multiset(before) - multiset{off} + multiset{home}
    requires |after| == |before|
    ensures KeepsOccurrences(before, after, ents)
  {
    assert multiset(after + [off]) == multiset(before + [home]);
    forall i ensures IdCount(after, i) == IdCount(before, i) {
      IdCountPerm(after + [off], before + [home], i);
      IdCountAppend(after, [off], i);
      IdCountAppend(before, [home], i);
      assert [off][..0] == [] && [home][..0] == [];
    }
  }

  /**
   * Resolution moves occurrences, but it never adds or drops one, never sends one away from
   * its object's recorded position, and never brings one into a position other than it.
   */
  lemma {:induction false} ResolveOccurrences(ix: Index, ents: map<Id, GameObject>, c: Option<Entry>, rep: Reports, unres: seq<Entry>)
    requires WellFormed(ix) && Pending(ix, ents, c, unres)
    ensures var o := Resolve(ix, ents, c, rep, unres);
      KeepsOccurrences(Occ(ix), Occ(o.index), ents) && OffCount(o.index, ents) <= OffCount(ix, ents)
    decreases OffCount(ix, ents), if c.Some? then 1 else 0
  {
    if c.Some? {
      RepairProgress(ix, ents, c, unres);
      RepairKeeps(ix, ents, c, unres);
      ResolveUnfold(ix, ents, c, rep, unres);
      var (ix', unres') := Repair(ix, ents, c.value, unres);
      ResolveOccurrences(ix', ents, Refetch(ix', ents, unres'), Record(rep, c.value.objs), unres');
    }
  }

  /** The reports stay a well-formed dictionary and only grow. */
  lemma {:induction false} ResolveReports(ix: Index, ents: map<Id, GameObject>, c: Option<Entry>, rep: Reports, unres: seq<Entry>)
    requires WellFormed(ix) && Pending(ix, ents, c, unres) && Valid(rep)
    ensures var o := Resolve(ix, ents, c, rep, unres);
      Valid(o.reports) && Grows(rep, o.reports)
    decreases OffCount(ix, ents), if c.Some? then 1 else 0
  {
    if c.Some? {
      RepairProgress(ix, ents, c, unres);
      ResolveUnfold(ix, ents, c, rep, unres);
      var (ix', unres') := Repair(ix, ents, c.value, unres);
      var rep' := Record(rep, c.value.objs);
      RecordPeers(rep, c.value.objs);
      ResolveReports(ix', ents, Refetch(ix', ents, unres'), rep', unres');
      GrowsTransitive(rep, rep', Resolve(ix', ents, Refetch(ix', ents, unres'), rep', unres').reports);
    }
  }

  /** The first conflict of a tick is recorded: all its members see one another in the final reports. */
  lemma ResolveReportsFirst(ix: Index, ents: map<Id, GameObject>, rep: Reports, unres: seq<Entry>)
    requires WellFormed(ix) && Valid(rep) && Fetch(ix, ents).Some?
    ensures AllSee(Fetch(ix, ents).value.objs, Resolve(ix, ents, Fetch(ix, ents), rep, unres).reports)
  {
    var c := Fetch(ix, ents).value;
    ResolveUnfold(ix, ents, Some(c), rep, unres);
    RepairProgress(ix, ents, Some(c), unres);
    var (ix', unres') := Repair(ix, ents, c, unres);
    var rep' := Record(rep, c.objs);
    RecordPeers(rep, c.objs);
    ResolveReports(ix', ents, Refetch(ix', ents, unres'), rep', unres');
    GrowsKeepsAll(c.objs, rep', Resolve(ix', ents, Refetch(ix', ents, unres'), rep', unres').reports);
  }

  /**
   * A conflict whose members all sit where they record is never resolved: it becomes the
   * only unresolvable conflict and the loop stops with the index untouched, even when
   * later buckets still hold resolvable conflicts.
   */
  lemma ResolveStopsAtStuck(ix: Index, ents: map<Id, GameObject>)
    requires WellFormed(ix) && Fetch(ix, ents).Some? && Stuck(Fetch(ix, ents).value, ents)
    ensures var o := Resolve(ix, ents, Fetch(ix, ents), NoReports(), []);
      o.index == ix && o.unresolvable == [Fetch(ix, ents).value]
  {
    var c := Fetch(ix, ents).value;
    var k := FirstOff(c.objs, ents, c.key);
    assert k == |c.objs|;
    assert [] + [c] == [c];
    assert Repair(ix, ents, c, []) == (ix, [c]);
    ResolveUnfold(ix, ents, Some(c), NoReports(), []);
    assert Refetch(ix, ents, [c]).None?;
  }

  /**
   * What one `__move_objects` call leaves in the index, and the reports it gathered: the
   * requests drained, then the conflicts resolved from the first fetch on.
   */
  function Settle(ix: Index, ents: map<Id, GameObject>, reqs: seq<Request>): (o: Outcome)
    requires WellFormed(ix)
    ensures WellFormed(o.index) && Valid(o.reports)
    ensures Fetch(o.index, ents).None? || Fetch(o.index, ents).value in o.unresolvable
  {
    DrainKeepsOthers(ix, ents, reqs);
    var d := Drain(ix, ents, reqs);
    ResolveReports(d, ents, Fetch(d, ents), NoReports(), []);
    Resolve(d, ents, Fetch(d, ents), NoReports(), [])
  }

  /** Where an object was last seen in an iteration of the index, if anywhere. */
  function LastKey(occ: seq<Slot>, id: Id): Option<Key> {
    if occ == [] then None
    else if occ[|occ| - 1].id == id then Some(occ[|occ| - 1].key)
    else LastKey(occ[..|occ| - 1], id)
  }

  /** The write-back loop of termgame.py:311-313: each occurrence sets its object's position. */
  function WriteBack(ents: map<Id, GameObject>, occ: seq<Slot>): map<Id, GameObject> {
    if occ == [] then ents
    else
      var w := WriteBack(ents, occ[..|occ| - 1]);
      var s := occ[|occ| - 1];
      if s.id in w then w[s.id := w[s.id].(position := s.key)] else w
  }

  /**
   * The write-back only moves objects: the same ids stay registered, an object that does
   * not occur keeps its record, and one that does records the key of its last occurrence.
   */
  lemma {:induction false} WriteBackLast(ents: map<Id, GameObject>, occ: seq<Slot>)
    ensures WriteBack(ents, occ).Keys == ents.Keys
    ensures forall id :: id in ents && LastKey(occ, id).None? ==> WriteBack(ents, occ)[id] == ents[id]
    ensures forall id :: id in ents && LastKey(occ, id).Some? ==>
      WriteBack(ents, occ)[id] == ents[id].(position := LastKey(occ, id).value)
  {
    if occ != [] {
      WriteBackLast(ents, occ[..|occ| - 1]);
    }
  }

  /** One more occurrence: its object takes the occurrence's key. */
  lemma WriteBackStep(ents: map<Id, GameObject>, occ: seq<Slot>, s: Slot)
    ensures WriteBack(ents, occ + [s]) ==
      var w := WriteBack(ents, occ); if s.id in w then w[s.id := w[s.id].(position := s.key)] else w
  {
    assert (occ + [s])[..|occ|] == occ;
  }

  /** The last occurrence is found: it names the object and it is an occurrence of the iteration. */
  lemma {:induction false} LastKeyOccurs(occ: seq<Slot>, id: Id)
    requires LastKey(occ, id).Some?
    ensures exists l :: Slot(l, LastKey(occ, id).value, id) in occ
  {
    var s := occ[|occ| - 1];
    if s.id != id {
      LastKeyOccurs(occ[..|occ| - 1], id);
      var l :| Slot(l, LastKey(occ, id).value, id) in occ[..|occ| - 1];
      assert Slot(l, LastKey(occ, id).value, id) in occ;
    } else {
      assert Slot(s.layer, s.key, id) in occ;
    }
  }

  /** An object seen under one position only ends up recording that position. */
  lemma {:induction false} WriteBackSettles(ents: map<Id, GameObject>, occ: seq<Slot>, id: Id, k: Key)
    requires id in ents
    requires exists s :: s in occ && s.id == id
    requires forall s :: s in occ && s.id == id ==> s.key == k
    ensures id in WriteBack(ents, occ) && WriteBack(ents, occ)[id].position == k
  {
    var s :| s in occ && s.id == id;
    WriteBackLast(ents, occ);
    LastKeyFound(occ, id, s);
    LastKeyOccurs(occ, id);
  }

  /** Any occurrence of the object makes its last occurrence exist. */
  lemma {:induction false} LastKeyFound(occ: seq<Slot>, id: Id, s: Slot)
    requires s in occ && s.id == id
    ensures LastKey(occ, id).Some?
  {
    var t := occ[|occ| - 1];
    if t.id != id {
      assert s in occ[..|occ| - 1] by {
        var i :| 0 <= i < |occ| && occ[i] == s;
        assert i < |occ| - 1;
        assert occ[..|occ| - 1][i] == s;
      }
      LastKeyFound(occ[..|occ| - 1], id, s);
    }
  }
}
