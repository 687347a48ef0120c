/**
 * The game object `TermGame`: the registry of spawned objects, the id counter, the move
 * requests, the collision map, and the debug log, with the operations of one tick.
 */
module Engine {
  import opened Wrappers
  import opened GameObjects
  import opened Lists
  import opened Occupancy
  import opened Conflicts
  import opened CollisionMaps
  import opened CollisionReports
  import opened Resolution
  import Control
  import Pathfinding

  /** One debug-log line: the time it was written (nanoseconds), the caller's name and the message. */
  datatype LogEntry = LogEntry(time: int, caller: string, message: string)

  /** The log keeps this many lines. */
  const LogCapacity: nat := 15

  /** `log`: the new line goes first and the list is cut to its first fifteen lines. */
  function Newest(log: seq<LogEntry>, e: LogEntry): (r: seq<LogEntry>)
    ensures |r| == if |log| < LogCapacity then |log| + 1 else LogCapacity
    ensures r[0] == e
    ensures forall i :: 1 <= i < |r| ==> r[i] == log[i - 1]
  {
    var all := [e] + log;
    if |all| <= LogCapacity then all else all[..LogCapacity]
  }

  /** The message `load_scene` logs for an unknown scene. */
  function SceneMissing(name: string): string {
    "Unable to load scene: " + name + ". Scene not found in active_objects."
  }

  /** The message `move_rel` logs for an object without a position (its position prints as `None`). */
  function Unplaced(delta: Pos): string {
    "Relative move requested without current position: None -> " + PairString(delta)
  }

  /** The colliders among `ids`, each as the occurrence the rebuilt index gives it. */
  function ColliderSlots(ents: map<Id, GameObject>, ids: seq<Id>): seq<Slot>
    requires forall i :: 0 <= i < |ids| ==> ids[i] in ents
  {
    if ids == [] then []
    else
      var id := ids[|ids| - 1];
      var g := ents[id];
      ColliderSlots(ents, ids[..|ids| - 1]) + (if g.collision.collider then [Slot(g.collision.layer, g.position, id)] else [])
  }

  /** The index rebuilt from the registry (termgame.py:326-332): every collider, in registry order. */
  function Rebuilt(ents: map<Id, GameObject>, ids: seq<Id>): Index
    requires forall i :: 0 <= i < |ids| ==> ids[i] in ents
  {
    if ids == [] then []
    else
      var id := ids[|ids| - 1];
      var g := ents[id];
      var ix := Rebuilt(ents, ids[..|ids| - 1]);
      if g.collision.collider then Add(ix, g.collision.layer, g.position, id) else ix
  }

  /**
   * The rebuilt index is well formed and holds exactly one occurrence per collider in the
   * registry, in that collider's layer and under its recorded position (`None` included).
   */
  lemma {:induction false} RebuiltOcc(ents: map<Id, GameObject>, ids: seq<Id>)
    requires forall i :: 0 <= i < |ids| ==> ids[i] in ents
    ensures WellFormed(Rebuilt(ents, ids))
    ensures multiset(Occ(Rebuilt(ents, ids))) == multiset(ColliderSlots(ents, ids))
  {
    if ids != [] {
      var id := ids[|ids| - 1];
      var g := ents[id];
      var pre := ids[..|ids| - 1];
      RebuiltOcc(ents, pre);
      var ix := Rebuilt(ents, pre);
      if g.collision.collider {
        SetBucketWellFormed(ix, g.collision.layer, g.position, Bucket(ix, g.collision.layer, g.position) + [id]);
        AddOcc(ix, g.collision.layer, g.position, id);
      }
    }
  }

  /** Ids listed in strictly increasing order, hence each at most once. */
  ghost predicate Increasing(s: seq<Id>) {
    forall a, b :: 0 <= a < b < |s| ==> s[a] < s[b]
  }

  /** Every object is stored under its own id, and every id is below the next one to be handed out. */
  ghost predicate Registered(ents: map<Id, GameObject>, nextId: nat) {
    forall id :: id in ents ==> id < nextId && ents[id].id == Some(id)
  }

  /** Every listed id names a spawned object. */
  ghost predicate Known(ids: seq<Id>, ents: map<Id, GameObject>) {
    forall i :: 0 <= i < |ids| ==> ids[i] in ents
  }

  /** Every request is made by a spawned object. */
  ghost predicate KnownRequests(reqs: seq<Request>, ents: map<Id, GameObject>) {
    forall q :: q in reqs ==> q.id in ents
  }

  /** Writing positions back keeps every object under its own id and keeps the listed ids known. */
  lemma WriteBackRegistry(ents: map<Id, GameObject>, occ: seq<Slot>, nextId: nat, ids: seq<Id>)
    requires Registered(ents, nextId) && Known(ids, ents)
    ensures Registered(WriteBack(ents, occ), nextId) && Known(ids, WriteBack(ents, occ))
  {
    WriteBackLast(ents, occ);
  }

  /**
   * `del active_objects[id]` on the registry: the id leaves, every other id stays, and the
   * order of the rest is kept.
   */
  function Deregister(active: seq<Id>, id: Id): (r: seq<Id>)
    requires Increasing(active)
    ensures Increasing(r)
    ensures forall x :: x in r <==> x in active && x != id
    ensures forall i :: 0 <= i < |r| ==> r[i] in active
  {
    var i := IndexOf(active, id);
    if i == |active| then active
    else
      var r := active[..i] + active[i + 1..];
      assert forall a :: 0 <= a < |r| ==> r[a] == active[if a < i then a else a + 1];
      assert forall x :: x in active && x != id ==> x in r by {
        forall x | x in active && x != id ensures x in r {
          var j :| 0 <= j < |active| && active[j] == x;
          assert r[if j < i then j else j - 1] == x;
        }
      }
      r
  }

  /** The loop of the rebuild: a new map, and one `add_obj` per registered collider. */
  method BuildIndex(ents: map<Id, GameObject>, ids: seq<Id>) returns (cm: CollisionMap)
    requires Known(ids, ents)
    ensures fresh(cm) && cm.Valid()
    ensures cm.layers == Rebuilt(ents, ids)
  {
    cm := new CollisionMap();
    for n := 0 to |ids|
      invariant fresh(cm) && cm.Valid() && cm.layers == Rebuilt(ents, ids[..n])
    {
      assert ids[..n + 1][..n] == ids[..n];
      var id := ids[n];
      var obj := ents[id];
      if obj.collision.collider {
        cm.AddObj(obj.collision.layer, obj.position, id);
      }
    }
    assert ids[..|ids|] == ids;
  }

  /** The search of termgame.py:296-297 for the first member not recorded at the conflict cell. */
  method FindOff(members: seq<Id>, ents: map<Id, GameObject>, key: Key) returns (k: nat)
    ensures k == FirstOff(members, ents, key)
  {
    k := 0;
    while k < |members| && RecordedKey(ents, members[k]) == key
      invariant k <= |members|
      invariant forall j :: 0 <= j < k ==> RecordedKey(ents, members[j]) == key
    {
      k := k + 1;
    }
  }

  /**
   * The repair of one round (termgame.py:296-306) on the collision map: the first off
   * member of the conflict goes back to its recorded position, or the conflict is marked
   * unresolvable.
   */
  method RepairConflict(cm: CollisionMap, ents: map<Id, GameObject>, c: Entry, unres: seq<Entry>) returns (unres': seq<Entry>)
    requires cm.Valid()
    modifies cm
    ensures cm.Valid()
    ensures (cm.layers, unres') == Repair(old(cm.layers), ents, c, unres)
  {
    ghost var ix := cm.layers;
    var k := FindOff(c.objs, ents, c.key);
    unres' := unres;
    if k < |c.objs| {
      var id := c.objs[k];
      cm.RemoveObj(c.layer, c.key, id);
      cm.AddObj(c.layer, RecordedKey(ents, id), id);
      assert cm.layers == Revert(ix, c, id, ents);
    } else {
      unres' := unres + [c];
    }
  }

  /**
   * One round of the resolution loop (termgame.py:289-309): record the conflict, repair
   * it, and fetch the next conflict.
   */
  method ResolveRound(cm: CollisionMap, ents: map<Id, GameObject>, c: Entry, rep: Reports, unres: seq<Entry>)
    returns (rep': Reports, unres': seq<Entry>, next: Option<Entry>)
    requires cm.Valid()
    modifies cm
    ensures cm.Valid()
    ensures (cm.layers, unres') == Repair(old(cm.layers), ents, c, unres)
    ensures rep' == Record(rep, c.objs)
    ensures next == Refetch(cm.layers, ents, unres')
  {
    rep' := RecordConflict(rep, c.objs);
    unres' := RepairConflict(cm, ents, c, unres);
    next := Fetch(cm.layers, ents);
    if next.Some? && next.value in unres' {
      next := None;
    }
  }

  /**
   * The resolution loop of `__move_objects` (termgame.py:286-310) on the collision map,
   * with the objects' recorded positions as they were before the tick.
   */
  method ResolveConflicts(cm: CollisionMap, ents: map<Id, GameObject>) returns (rep: Reports, unres: seq<Entry>)
    requires cm.Valid()
    modifies cm
    ensures cm.Valid()
    ensures Outcome(cm.layers, rep, unres) == Resolve(old(cm.layers), ents, Fetch(old(cm.layers), ents), NoReports(), [])
  {
    var collision := Fetch(cm.layers, ents);
    unres := [];
    rep := NoReports();
    ghost var goal := Resolve(cm.layers, ents, collision, rep, unres);
    while collision.Some?
      invariant cm.Valid() && Pending(cm.layers, ents, collision, unres)
      invariant Resolve(cm.layers, ents, collision, rep, unres) == goal
      decreases OffCount(cm.layers, ents), if collision.Some? then 1 else 0
    {
      ResolveUnfold(cm.layers, ents, collision, rep, unres);
      RepairProgress(cm.layers, ents, collision, unres);
      rep, unres, collision := ResolveRound(cm, ents, collision.value, rep, unres);
    }
  }

  /**
   * The write-back loop of termgame.py:311-313: the buckets are walked in iteration order
   * and every occurrence sets its object's position to the bucket's key.
   */
  method WriteBackPositions(ents: map<Id, GameObject>, ix: Index) returns (w: map<Id, GameObject>)
    ensures w == WriteBack(ents, Occ(ix))
  {
    var es := Entries(ix);
    w := ents;
    for i := 0 to |es|
      invariant w == WriteBack(ents, OccOf(es[..i]))
    {
      var e := es[i];
      w := WriteBackEntry(ents, OccOf(es[..i]), e, w);
      assert es[..i + 1] == es[..i] + [e];
      OccOfAppend(es[..i], [e]);
      OccOfSingle(e);
    }
    assert es[..|es|] == es;
  }

  /** The inner loop of termgame.py:312-313: the objects of one bucket, in bucket order. */
  method WriteBackEntry(ents: map<Id, GameObject>, ghost before: seq<Slot>, e: Entry, w0: map<Id, GameObject>)
    returns (w: map<Id, GameObject>)
    requires w0 == WriteBack(ents, before)
    ensures w == WriteBack(ents, before + SlotsOf(e.layer, e.key, e.objs))
  {
    w := w0;
    assert before + SlotsOf(e.layer, e.key, e.objs[..0]) == before;
    for j := 0 to |e.objs|
      invariant w == WriteBack(ents, before + SlotsOf(e.layer, e.key, e.objs[..j]))
    {
      var id := e.objs[j];
      ghost var done := before + SlotsOf(e.layer, e.key, e.objs[..j]);
      WriteBackStep(ents, done, Slot(e.layer, e.key, id));
      SlotsPrefixStep(e.layer, e.key, e.objs, j);
      assert before + SlotsOf(e.layer, e.key, e.objs[..j + 1]) == done + [Slot(e.layer, e.key, id)];
      if id in w {
        w := w[id := w[id].(position := e.key)];
      }
    }
    assert e.objs[..|e.objs|] == e.objs;
  }

  /**
   * The part of `__move_objects` after the draining (termgame.py:286-318): resolve the
   * conflicts, write the bucket positions back, and notify the active reported objects.
   */
  method ResolveTick(cm: CollisionMap, ents: map<Id, GameObject>, active: seq<Id>, ghost nextId: nat)
    returns (w: map<Id, GameObject>, notes: seq<Notification>)
    requires cm.Valid() && Registered(ents, nextId) && Known(active, ents)
    modifies cm
    ensures cm.Valid() && Registered(w, nextId) && Known(active, w)
    ensures var o := Settle(old(cm.layers), ents, []);
      && cm.layers == o.index
      && w == WriteBack(ents, Occ(o.index))
      && notes == NotesOf(o.reports.order, o.reports.peers, active)
  {
    ghost var start := cm.layers;
    ResolveReports(start, ents, Fetch(start, ents), NoReports(), []);
    var rep, unres := ResolveConflicts(cm, ents);
    w := WriteBackPositions(ents, cm.layers);
    notes := Notify(rep, active);
    WriteBackRegistry(ents, Occ(cm.layers), nextId, active);
  }

  class TermGame {
    /** Every object the game ever spawned, by id; destroyed objects stay here. */
    var entities: map<Id, GameObject>
    /** The keys of `active_objects`, in insertion order. */
    var active: seq<Id>
    var nextId: nat
    var requests: seq<Request>
    var collisionMap: CollisionMap
    var debugLog: seq<LogEntry>
    var debugMode: bool
    var now: int
    var lastFrameTime: Option<int>
    /** The spawnable labels and the collision profile each one's class gives its objects. */
    const resources: map<string, Collision>
    /** The last usable row and column of the screen. */
    const maxY: int
    const maxX: int

    ghost predicate Valid()
      reads this, collisionMap
    {
      && collisionMap.Valid()
      && Registered(entities, nextId)
      && Known(active, entities)
      && Increasing(active)
      && KnownRequests(requests, entities)
      && lastFrameTime.None?
    }

    /** `__init__` with the screen size and the discovered resources given as parameters. */
    constructor (rows: int, cols: int, resources: map<string, Collision>, now: int)
      ensures Valid()
      ensures this.resources == resources && maxY == rows - 1 && maxX == cols - 1 && this.now == now
      ensures entities == map[] && active == [] && nextId == 0 && requests == []
      ensures collisionMap.layers == [] && debugLog == [] && debugMode
    {
      this.resources := resources;
      maxY := rows - 1;
      maxX := cols - 1;
      this.now := now;
      entities := map[];
      active := [];
      nextId := 0;
      requests := [];
      collisionMap := new CollisionMap();
      debugLog := [];
      debugMode := true;
      lastFrameTime := None;
    }

    /** `log`: a new line stamped with the current time, newest first, fifteen lines at most. */
    method Log(caller: string, message: string)
      modifies this
      ensures debugLog == Newest(old(debugLog), LogEntry(now, caller, message))
      ensures entities == old(entities) && active == old(active) && nextId == old(nextId)
      ensures requests == old(requests) && collisionMap == old(collisionMap)
      ensures debugMode == old(debugMode) && now == old(now) && lastFrameTime == old(lastFrameTime)
    {
      var line := LogEntry(now, caller, message);
      debugLog := [line] + debugLog;
      if |debugLog| > LogCapacity {
        debugLog := debugLog[..LogCapacity];
      }
    }

    /**
     * `__new_game_object`: the object gets the next id and enters the registry. Ids are
     * handed out in increasing order and never reused.
     */
    method NewObject(name: string) returns (id: Id)
      requires Valid() && name in resources
      modifies this
      ensures Valid()
      ensures id == old(nextId) && id !in old(entities) && nextId == old(nextId) + 1
      ensures entities == old(entities)[id := NewGameObject(name, resources[name]).(id := Some(id))]
      ensures active == old(active) + [id]
      ensures requests == old(requests) && collisionMap == old(collisionMap) && debugLog == old(debugLog)
      ensures debugMode == old(debugMode) && now == old(now) && lastFrameTime == old(lastFrameTime)
    {
      id := nextId;
      nextId := nextId + 1;
      entities := entities[id := NewGameObject(name, resources[name]).(id := Some(id))];
      active := active + [id];
    }

    /**
     * `spawn_obj`: an unknown name spawns nothing. A known one spawns an object at the
     * given position and indexes it there under its layer, whether or not it is a collider.
     */
    method SpawnObj(name: string, position: Key) returns (r: Option<Id>)
      requires Valid()
      modifies this, collisionMap
      ensures Valid()
      ensures name !in resources ==> r.None? && unchanged(this) && unchanged(collisionMap)
      ensures name in resources ==> r == Some(old(nextId)) && r.value !in old(entities)
      ensures name in resources ==>
        && nextId == old(nextId) + 1
        && entities == old(entities)[r.value := GameObject(Some(r.value), name, position, resources[name])]
        && active == old(active) + [r.value]
        && collisionMap == old(collisionMap)
        && collisionMap.layers == Add(old(collisionMap.layers), resources[name].layer, position, r.value)
        && requests == old(requests) && debugLog == old(debugLog)
        && debugMode == old(debugMode) && now == old(now)
    {
      if name !in resources {
        return None;
      }
      var id := NewObject(name);
      entities := entities[id := entities[id].(position := position)];
      collisionMap.AddObj(entities[id].collision.layer, position, id);
      r := Some(id);
    }

    /**
     * `destroy_object` (and `GameObject.destroy`): deleting an id that is not registered
     * raises `KeyError` before anything changes (`ok` is false). Otherwise the id leaves
     * the registry and one occurrence leaves the bucket of its recorded position.
     */
    method DestroyObject(id: Id) returns (ok: bool)
      requires Valid() && id in entities
      modifies this, collisionMap
      ensures Valid()
      ensures ok <==> id in old(active)
      ensures !ok ==> unchanged(this) && unchanged(collisionMap)
      ensures ok ==>
        && active == Deregister(old(active), id)
        && collisionMap.layers == Remove(old(collisionMap.layers), old(entities[id]).collision.layer, old(entities[id]).position, id)
      ensures entities == old(entities) && nextId == old(nextId) && requests == old(requests)
      ensures collisionMap == old(collisionMap) && debugLog == old(debugLog)
      ensures debugMode == old(debugMode) && now == old(now)
    {
      if id !in active {
        return false;
      }
      active := Deregister(active, id);
      collisionMap.RemoveObj(entities[id].collision.layer, entities[id].position, id);
      ok := true;
    }

    /** `move` (and `GameObject.move_abs`): the request goes at the end of the list. */
    method Move(id: Id, target: Key)
      requires Valid() && id in entities
      modifies this
      ensures Valid()
      ensures requests == old(requests) + [Request(id, target)]
      ensures entities == old(entities) && active == old(active) && nextId == old(nextId)
      ensures collisionMap == old(collisionMap) && debugLog == old(debugLog)
      ensures debugMode == old(debugMode) && now == old(now)
    {
      requests := requests + [Request(id, target)];
    }

    /**
     * `GameObject.move_rel`: a placed object requests its position shifted by the delta;
     * an unplaced one requests nothing and logs the failure instead.
     */
    method MoveRel(id: Id, delta: Pos)
      requires Valid() && id in entities
      modifies this
      ensures Valid()
      ensures old(entities[id].position).Some? ==>
        requests == old(requests) + [Request(id, Some(RelTarget(old(entities[id].position).value, delta)))]
        && debugLog == old(debugLog)
      ensures old(entities[id].position).None? ==>
        requests == old(requests)
        && debugLog == Newest(old(debugLog), LogEntry(now, old(entities[id]).name, Unplaced(delta)))
      ensures entities == old(entities) && active == old(active) && nextId == old(nextId)
      ensures collisionMap == old(collisionMap) && debugMode == old(debugMode) && now == old(now)
    {
      var obj := entities[id];
      if obj.position.Some? {
        Move(id, Some(RelTarget(obj.position.value, delta)));
      } else {
        Log(obj.name, Unplaced(delta));
      }
    }

    /** The draining loop of `__move_objects` (termgame.py:281-285): requests are popped from the end. */
    method DrainRequests()
      requires Valid()
      modifies this, collisionMap
      ensures Valid() && requests == []
      ensures collisionMap.layers == Drain(old(collisionMap.layers), entities, old(requests))
      ensures entities == old(entities) && active == old(active) && nextId == old(nextId)
      ensures collisionMap == old(collisionMap) && debugLog == old(debugLog) && debugMode == old(debugMode)
      ensures now == old(now)
    {
      while requests != []
        invariant Valid()
        invariant Drain(collisionMap.layers, entities, requests) == Drain(old(collisionMap.layers), entities, old(requests))
        invariant entities == old(entities) && active == old(active) && nextId == old(nextId)
        invariant collisionMap == old(collisionMap) && debugLog == old(debugLog) && debugMode == old(debugMode)
        invariant now == old(now)
        decreases |requests|
      {
        var q := requests[|requests| - 1];
        assert q in requests;
        requests := requests[..|requests| - 1];
        var obj := entities[q.id];
        collisionMap.RemoveObj(obj.collision.layer, obj.position, q.id);
        collisionMap.AddObj(obj.collision.layer, q.target, q.id);
      }
    }

    /**
     * `__move_objects`: with no request nothing happens. Otherwise the requests are drained,
     * the conflicts resolved, every object in the index takes the position of the bucket it
     * was last seen in, and each reported object that is still active is notified.
     */
    method MoveObjects() returns (notes: seq<Notification>)
      requires Valid()
      modifies this, collisionMap
      ensures Valid()
      ensures old(requests) == [] ==> unchanged(this) && unchanged(collisionMap) && notes == []
      ensures old(requests) != [] ==>
        var o := Settle(old(collisionMap.layers), old(entities), old(requests));
        && collisionMap.layers == o.index
        && entities == WriteBack(old(entities), Occ(o.index))
        && requests == []
        && notes == NotesOf(o.reports.order, o.reports.peers, active)
      ensures active == old(active) && nextId == old(nextId) && collisionMap == old(collisionMap)
      ensures debugLog == old(debugLog) && debugMode == old(debugMode) && now == old(now)
    {
      if requests == [] {
        return [];
      }
      DrainRequests();
      notes := SettleConflicts();
    }

    /**
     * The part of `__move_objects` after the draining (termgame.py:286-318), on the game:
     * the conflicts are resolved in the collision map, the objects take the positions of
     * the buckets they were last seen in, and the active reported objects are notified.
     */
    method SettleConflicts() returns (notes: seq<Notification>)
      requires Valid() && requests == []
      modifies this, collisionMap
      ensures Valid() && requests == []
      ensures var o := Settle(old(collisionMap.layers), old(entities), []);
        && collisionMap.layers == o.index
        && entities == WriteBack(old(entities), Occ(o.index))
        && notes == NotesOf(o.reports.order, o.reports.peers, active)
      ensures active == old(active) && nextId == old(nextId) && collisionMap == old(collisionMap)
      ensures debugLog == old(debugLog) && debugMode == old(debugMode) && now == old(now)
    {
      var w;
      w, notes := ResolveTick(collisionMap, entities, active, nextId);
      entities := w;
    }

    /** `load_scene`: an unknown scene switches debug mode on and logs the failure. */
    method LoadScene(name: string) returns (found: bool)
      requires Valid()
      modifies this
      ensures Valid()
      ensures found <==> name in resources
      ensures found ==> debugLog == old(debugLog) && debugMode == old(debugMode)
      ensures !found ==> debugMode && debugLog == Newest(old(debugLog), LogEntry(now, "game", SceneMissing(name)))
      ensures entities == old(entities) && active == old(active) && nextId == old(nextId)
      ensures requests == old(requests) && collisionMap == old(collisionMap) && now == old(now)
    {
      if name in resources {
        return true;
      }
      debugMode := true;
      Log("game", SceneMissing(name));
      found := false;
    }

    /** `__ready_for_next_frame` over the recorded last frame time. */
    function ReadyForNextFrame(): (r: bool)
      reads this
      ensures lastFrameTime.None? ==> r
    {
      Control.FrameReady(lastFrameTime, now)
    }

    /** The last frame time is never recorded, so every frame is drawn. */
    lemma AlwaysReady()
      requires Valid()
      ensures ReadyForNextFrame()
    {
    }

    /**
     * The index rebuild of `__draw_game_objects`: a fresh map holding every registered
     * collider under its layer and recorded position, in registry order.
     */
    method RebuildCollisionMap()
      requires Valid()
      modifies this
      ensures Valid() && fresh(collisionMap)
      ensures collisionMap.layers == Rebuilt(entities, active)
      ensures entities == old(entities) && active == old(active) && nextId == old(nextId)
      ensures requests == old(requests) && debugLog == old(debugLog) && debugMode == old(debugMode)
      ensures now == old(now)
    {
      collisionMap := BuildIndex(entities, active);
    }

    /** `__draw_frame`: when a frame is due the index is rebuilt (the drawing itself is not modelled). */
    method DrawFrame()
      requires Valid()
      modifies this
      ensures Valid()
      ensures collisionMap.layers == Rebuilt(entities, active)
      ensures entities == old(entities) && active == old(active) && requests == old(requests)
      ensures nextId == old(nextId) && now == old(now) && debugLog == old(debugLog)
      ensures debugMode == old(debugMode)
    {
      AlwaysReady();
      if ReadyForNextFrame() {
        RebuildCollisionMap();
      }
    }

    /**
     * `__loop` once input has been read and objects updated (neither is modelled): the clock
     * is read, the objects are moved, and the frame is drawn, which rebuilds the index from
     * the positions the move wrote back.
     */
    method Loop(time: int) returns (notes: seq<Notification>)
      requires Valid()
      modifies this, collisionMap
      ensures Valid() && now == time && requests == []
      ensures old(requests) == [] ==> entities == old(entities) && notes == []
      ensures old(requests) != [] ==>
        var o := Settle(old(collisionMap.layers), old(entities), old(requests));
        && entities == WriteBack(old(entities), Occ(o.index))
        && notes == NotesOf(o.reports.order, o.reports.peers, active)
      ensures collisionMap.layers == Rebuilt(entities, active)
      ensures active == old(active) && nextId == old(nextId)
      ensures debugLog == old(debugLog) && debugMode == old(debugMode)
    {
      now := time;
      notes := MoveObjects();
      DrawFrame();
    }

    /**
     * `pathfind` from the object's recorded position to the target, on this game's screen:
     * a found path walks step by step from next to the object to the target, and between
     * two screen positions a path is always found.
     */
    method Pathfind(id: Id, target: Key) returns (r: Result<seq<Pos>, Pathfinding.PathError>)
      requires Valid() && id in entities
      ensures var start := entities[id].position;
        start.None? ==> r == (if target.None? then Ok([]) else Err(Pathfinding.TypeError))
      ensures var start := entities[id].position;
        start.Some? && target.None? ==>
          r == Err(if Pathfinding.Neighbors(start.value, maxY, maxX) == [] then Pathfinding.KeyError else Pathfinding.TypeError)
      ensures var start := entities[id].position;
        start.Some? && target.Some? ==>
          && (r.Ok? ==> Pathfinding.IsPath(start.value, target.value, r.value, maxY, maxX))
          && (r.Err? ==> r.error == Pathfinding.KeyError)
          && (Pathfinding.InGrid(start.value, maxY, maxX) && Pathfinding.InGrid(target.value, maxY, maxX) ==> r.Ok?)
          && (start != target && !Pathfinding.InGrid(target.value, maxY, maxX) ==> r == Err(Pathfinding.KeyError))
    {
      r := Pathfinding.Pathfind(entities[id].position, target, maxY, maxX);
    }

    /** `find_object_by_label`: the registered objects with that name, in registry order. */
    method FindObjectByLabel(name: string) returns (ids: seq<Id>)
      requires Valid()
      ensures forall id :: id in ids <==> id in active && entities[id].name == name
      ensures forall a, b :: 0 <= a < b < |ids| ==> ids[a] < ids[b]
      ensures |ids| <= |active|
    {
      ids := [];
      for n := 0 to |active|
        invariant forall id :: id in ids <==> id in active[..n] && entities[id].name == name
        invariant forall a, b :: 0 <= a < b < |ids| ==> ids[a] < ids[b]
        invariant forall a :: 0 <= a < |ids| ==> ids[a] in active[..n]
        invariant |ids| <= n
      {
        assert active[..n + 1] == active[..n] + [active[n]];
        var id := active[n];
        if entities[id].name == name {
          forall a | 0 <= a < |ids| ensures ids[a] < id {
            var j :| 0 <= j < n && active[j] == ids[a];
          }
          ids := ids + [id];
        }
      }
      assert active[..|active|] == active;
    }

    /**
     * `get_objects_at_position`: for each layer that passes the filter (a `0` filter is
     * ignored), the bucket at the position when the layer has one, even an empty one.
     */
    method GetObjectsAtPosition(position: Key, layer: Option<int>) returns (found: map<int, seq<Id>>)
      requires Valid()
      ensures forall l :: l in found <==> LayerPasses(layer, l) && HasCell(collisionMap.layers, l, position)
      ensures forall l :: l in found ==> found[l] == Bucket(collisionMap.layers, l, position)
    {
      var es := Entries(collisionMap.layers);
      found := map[];
      for i := 0 to |es|
        invariant forall l :: l in found ==> LayerPasses(layer, l) && Entry(l, position, found[l]) in es[..i]
        invariant forall j :: 0 <= j < i && es[j].key == position && LayerPasses(layer, es[j].layer) ==> es[j].layer in found
      {
        var e := es[i];
        if LayerPasses(layer, e.layer) && e.key == position {
          found := found[e.layer := e.objs];
        }
        assert es[..i + 1] == es[..i] + [e];
      }
      assert es[..|es|] == es;
      forall l | l in found ensures HasCell(collisionMap.layers, l, position) && found[l] == Bucket(collisionMap.layers, l, position) {
        EntryIsBucket(collisionMap.layers, Entry(l, position, found[l]));
      }
      forall l | LayerPasses(layer, l) && HasCell(collisionMap.layers, l, position) ensures l in found {
        BucketIsEntry(collisionMap.layers, l, position);
        var j :| 0 <= j < |es| && es[j] == Entry(l, position, Bucket(collisionMap.layers, l, position));
      }
    }
  }
}
