/**
 * The read-only conflict queries of `TermGame.CollisionMap`: `__detect_collisions`
 * and `get_rb_collisions`, over the iteration of the index.
 */
module Conflicts {
  import opened Wrappers
  import opened GameObjects
  import opened Occupancy

  /** The rigidbody flag is read from the object itself. */
  predicate IsRigid(ents: map<Id, GameObject>, id: Id) {
    id in ents && ents[id].collision.rigidbody
  }

  /** `__detect_collisions`: the entries holding more than one object, in iteration order. */
  function DetectCollisions(es: seq<Entry>): (cs: seq<Entry>)
    ensures forall e :: e in cs <==> e in es && |e.objs| > 1
    ensures |cs| <= |es|
  {
    if es == [] then []
    else (if |es[0].objs| > 1 then [es[0]] else []) + DetectCollisions(es[1..])
  }

  /** The rigidbody members of a bucket, in bucket order (the list comprehension at 79-83). */
  function RbOnly(objs: seq<Id>, ents: map<Id, GameObject>): (r: seq<Id>)
    ensures forall id :: id in r <==> id in objs && IsRigid(ents, id)
    ensures |r| <= |objs|
  {
    if objs == [] then []
    else (if IsRigid(ents, objs[0]) then [objs[0]] else []) + RbOnly(objs[1..], ents)
  }

  /** A rigidbody listed several times in a bucket is listed as often in its narrowing. */
  lemma {:induction false} RbOnlyCount(objs: seq<Id>, ents: map<Id, GameObject>)
    ensures forall id :: multiset(RbOnly(objs, ents))[id] == if IsRigid(ents, id) then multiset(objs)[id] else 0
  {
    if objs != [] {
      assert objs == [objs[0]] + objs[1..];
      RbOnlyCount(objs[1..], ents);
    }
  }

  /**
   * The narrowing keeps bucket order: narrowing two lists one after the other is
   * narrowing their concatenation.
   */
  lemma {:induction false} RbOnlyAppend(a: seq<Id>, b: seq<Id>, ents: map<Id, GameObject>)
    ensures RbOnly(a + b, ents) == RbOnly(a, ents) + RbOnly(b, ents)
  {
    if a == [] {
      assert a + b == b;
    } else {
      assert (a + b)[0] == a[0];
      assert (a + b)[1..] == a[1..] + b;
      RbOnlyAppend(a[1..], b, ents);
    }
  }

  /** A layer filter applies only when it is truthy: `None` and `0` are both ignored. */
  predicate LayerPasses(filter: Option<int>, l: int) {
    filter.None? || filter.value == 0 || filter.value == l
  }

  /** A position filter applies only when given (a position tuple is always truthy). */
  predicate PositionPasses(filter: Option<Pos>, k: Key) {
    filter.None? || k == filter
  }

  /** A collision that passes both filters and holds at least two rigidbodies. */
  predicate Qualifies(e: Entry, layer: Option<int>, position: Option<Pos>, ents: map<Id, GameObject>) {
    && |e.objs| > 1
    && LayerPasses(layer, e.layer)
    && PositionPasses(position, e.key)
    && |RbOnly(e.objs, ents)| > 1
  }

  /** The rigidbody collision reported for a collision entry. */
  function RbView(e: Entry, ents: map<Id, GameObject>): Entry {
    Entry(e.layer, e.key, RbOnly(e.objs, ents))
  }

  /** Position of the first qualifying collision, or `|cs|` when none qualifies. */
  function FirstQualifying(cs: seq<Entry>, layer: Option<int>, position: Option<Pos>, ents: map<Id, GameObject>): (n: nat)
    ensures n <= |cs|
    ensures n < |cs| ==> Qualifies(cs[n], layer, position, ents)
    ensures forall m :: 0 <= m < n ==> !Qualifies(cs[m], layer, position, ents)
  {
    if cs == [] then 0
    else if Qualifies(cs[0], layer, position, ents) then 0
    else 1 + FirstQualifying(cs[1..], layer, position, ents)
  }

  /**
   * `get_rb_collisions`. With `single` it returns the first qualifying collision in
   * iteration order, narrowed to its rigidbodies. Without `single` the source builds a
   * list and then falls off the end of the function, so the result is always `None`.
   */
  function GetRbCollisions(ix: Index, layer: Option<int>, position: Option<Pos>, single: bool, ents: map<Id, GameObject>): (r: Option<Entry>)
    ensures !single ==> r.None?
    ensures r.Some? ==> exists e :: e in Entries(ix) && Qualifies(e, layer, position, ents) && r.value == RbView(e, ents)
    ensures single && r.None? ==> forall e :: e in Entries(ix) ==> !Qualifies(e, layer, position, ents)
  {
    if !single then None
    else
      var cs := DetectCollisions(Entries(ix));
      var n := FirstQualifying(cs, layer, position, ents);
      if n < |cs| then Some(RbView(cs[n], ents))
      else
        assert forall e :: e in Entries(ix) && Qualifies(e, layer, position, ents) ==> e in cs;
        None
  }

  /**
   * The first collision in iteration order wins: no entry before the reported one
   * qualifies, and the reported one is the rigidbody view of a bucket of the index.
   */
  lemma GetRbCollisionsIsFirst(ix: Index, layer: Option<int>, position: Option<Pos>, ents: map<Id, GameObject>)
    requires GetRbCollisions(ix, layer, position, true, ents).Some?
    ensures var es := Entries(ix);
      var n := FirstQualifying(es, layer, position, ents);
      n < |es| && GetRbCollisions(ix, layer, position, true, ents).value == RbView(es[n], ents)
  {
    FirstQualifyingOfDetected(Entries(ix), layer, position, ents);
  }

  /** Filtering out buckets with fewer than two objects never changes which qualifying entry comes first. */
  lemma {:induction false} FirstQualifyingOfDetected(es: seq<Entry>, layer: Option<int>, position: Option<Pos>, ents: map<Id, GameObject>)
    requires FirstQualifying(DetectCollisions(es), layer, position, ents) < |DetectCollisions(es)|
    ensures var cs := DetectCollisions(es);
      var n := FirstQualifying(es, layer, position, ents);
      n < |es| && es[n] == cs[FirstQualifying(cs, layer, position, ents)]
  {
    var cs := DetectCollisions(es);
    var rest := DetectCollisions(es[1..]);
    var n := FirstQualifying(es, layer, position, ents);
    if Qualifies(es[0], layer, position, ents) {
      assert cs == [es[0]] + rest;
      assert n == 0 && FirstQualifying(cs, layer, position, ents) == 0;
    } else {
      var m := FirstQualifying(es[1..], layer, position, ents);
      SkipDetected(es, layer, position, ents);
      FirstQualifyingOfDetected(es[1..], layer, position, ents);
      assert es[n] == es[1..][m];
    }
  }

  /** A first entry that does not qualify is passed over, whether or not it is a collision. */
  lemma SkipDetected(es: seq<Entry>, layer: Option<int>, position: Option<Pos>, ents: map<Id, GameObject>)
    requires es != [] && !Qualifies(es[0], layer, position, ents)
    ensures var cs, rest := DetectCollisions(es), DetectCollisions(es[1..]);
      var k := FirstQualifying(rest, layer, position, ents);
      && (FirstQualifying(cs, layer, position, ents) < |cs| <==> k < |rest|)
      && (k < |rest| ==> cs[FirstQualifying(cs, layer, position, ents)] == rest[k])
  {
    var rest := DetectCollisions(es[1..]);
    if |es[0].objs| > 1 {
      assert DetectCollisions(es) == [es[0]] + rest;
    } else {
      assert DetectCollisions(es) == [] + rest;
      assert [] + rest == rest;
    }
    SkipFirst(DetectCollisions(es), es[0], rest, layer, position, ents);
  }

  /**
   * The search passes over a first entry that does not qualify: the same entry is found
   * in `rest` as in `rest` with that entry in front of it.
   */
  lemma SkipFirst(cs: seq<Entry>, e: Entry, rest: seq<Entry>, layer: Option<int>, position: Option<Pos>, ents: map<Id, GameObject>)
    requires !Qualifies(e, layer, position, ents)
    requires cs == rest || cs == [e] + rest
    ensures var k := FirstQualifying(rest, layer, position, ents);
      && (FirstQualifying(cs, layer, position, ents) < |cs| <==> k < |rest|)
      && (k < |rest| ==> cs[FirstQualifying(cs, layer, position, ents)] == rest[k])
  {
    if cs != rest {
      assert cs[1..] == rest;
      var k := FirstQualifying(rest, layer, position, ents);
      assert FirstQualifying(cs, layer, position, ents) == 1 + k;
      assert k < |rest| ==> cs[1 + k] == rest[k];
    }
  }

  /**
   * What the resolver fetches (no filters, `single`) is a real bucket: it exists in the
   * index, and the conflict lists exactly that bucket's rigidbodies, at least two of them.
   */
  lemma FetchedConflict(ix: Index, ents: map<Id, GameObject>)
    requires WellFormed(ix)
    requires GetRbCollisions(ix, None, None, true, ents).Some?
    ensures var c := GetRbCollisions(ix, None, None, true, ents).value;
      && HasCell(ix, c.layer, c.key)
      && c.objs == RbOnly(Bucket(ix, c.layer, c.key), ents)
      && |c.objs| >= 2
      && forall id :: id in c.objs ==> id in Bucket(ix, c.layer, c.key) && IsRigid(ents, id)
  {
    var c := GetRbCollisions(ix, None, None, true, ents).value;
    var e :| e in Entries(ix) && Qualifies(e, None, None, ents) && c == RbView(e, ents);
    EntryIsBucket(ix, e);
  }
}
