# termgame: a verified model of the tick simulation

termgame is a small terminal game engine. A `TermGame` object keeps the following state:

- a registry of game objects (`active_objects`), with ids handed out in increasing order;
- a list of move requests;
- a layered collision map `layer -> position -> list of objects`, rebuilt on every drawn frame;
- a bounded debug log;
- a grid path finder.

Each tick reads the clock, drains the move requests into the collision map and resolves rigidbody conflicts. It then writes the positions back into the objects, notifies the objects that collided and draws the frame.

The model represents objects by the integer id the game assigns. The source compares objects by identity, and the id stands for that identity. The modules are:

- `GameObjects`: the object record and its collision profile.
- `Occupancy`: the collision map as a value. Dictionaries iterate in insertion order, so the index is a sequence of layers, each holding a sequence of cells.
- `CollisionMaps`: the map as an object whose methods update it in place.
- `Conflicts`: the conflict queries.
- `CollisionReports`: the per-tick collision reports.
- `Resolution`: the drain, resolve and write-back of `__move_objects`, as functions. They include the termination argument of the resolver.
- `Pathfinding`: the path search as imperative methods over maps and a sorted frontier.
- `Control`: the pause/quit/debug key transitions and the frame gate.
- `Engine`: the `TermGame` class, whose methods update the registry, the requests, the map and the log.

The path finder is modelled as the code behaves. Its `put(item, priority)` calls pass the priority as the queue's `block` flag, so the queue orders positions by (row, column), not by cost plus heuristic. The search finds a path, not a shortest one.

When the target was never explored, the reconstruction raises `KeyError`. This happens for an off-screen target, and it is not reported as a "no path" value.

The model follows the code on both points.

## Model

| member | source | states |
|---|---|---|
| GameObjects.DefaultCollision | gameobject.py:92-96 | a fresh collision profile is not a collider, not a rigidbody, layer 0, mass 1, not fixed |
| GameObjects.NewGameObject | gameobject.py:13-19 | a new object has no id and no position, and keeps its label and its class's collision profile |
| GameObjects.RelTarget | gameobject.py:48-50 | the relative-move target differs from the current position by exactly the delta, row and column apiece |
| GameObjects.NatStringValue | gameobject.py:54 | the decimal text of a number read back gives the number (the digits an f-string prints) |
| GameObjects.IntString | gameobject.py:54 | the text of an integer starts with `-` exactly when it is negative, followed by the digits of its magnitude |
| Lists.IndexOf | termgame.py:55 | the first index holding the value, or the length when there is none; no earlier index holds it |
| Lists.RemoveFirst | termgame.py:53-55 | `remove` guarded by membership: a no-op for an absent value, else exactly one occurrence fewer; `RemoveFirstIsFirst` states which one and that order is kept |
| Lists.RemoveFirstIsFirst | termgame.py:53-55 | the occurrence `remove` drops is the first one, and the elements before and after it keep their order |
| Lists.RemoveFirstKeepsOthers | termgame.py:293-294 | removing one object from a member list keeps every other member |
| Occupancy.LayerAt | termgame.py:42 | the position of a layer key in insertion order, or the length when absent; no earlier layer has that key |
| Occupancy.CellAt | termgame.py:42 | the position of a position key within a layer, or the length when absent |
| Occupancy.CellEntries | termgame.py:47-48 | one iteration triple per cell of a layer, in cell order |
| Occupancy.EntriesSetBucket | termgame.py:45-48 | setting one bucket changes exactly one triple of the iteration, or appends it, and keeps the order of all others |
| Occupancy.OccSetBucket | termgame.py:45-48 | the same at the level of single occurrences: one bucket's occurrences are replaced in place |
| Occupancy.SetBucketWellFormed | termgame.py:42 | keys stay unique at both levels of the defaultdict when a bucket is set |
| Occupancy.BucketSetBucket | termgame.py:42 | setting `map[l][k]` changes that bucket only and creates only that key |
| Occupancy.Add | termgame.py:50-51 | `add_obj` on the index: the id is appended to its bucket; `AddBuckets` and `AddOcc` state what that means |
| Occupancy.Remove | termgame.py:53-55 | `remove_obj` on the index: the first occurrence of the id leaves its bucket, which the lookup creates; `RemoveBuckets` and `RemoveOcc` state what that means |
| Occupancy.AddBuckets | termgame.py:50-51 | `add_obj` appends one occurrence to its own bucket, creating it if needed, and changes no other bucket |
| Occupancy.AddOcc | termgame.py:50-51 | `add_obj` puts exactly one more occurrence in the map |
| Occupancy.RemoveBuckets | termgame.py:53-55 | `remove_obj` drops the first occurrence from its own bucket, which exists afterwards, and changes no other bucket |
| Occupancy.RemoveOcc | termgame.py:53-55 | `remove_obj` takes out exactly one occurrence when there is one and leaves the map's occurrences as they were otherwise |
| Occupancy.Entries | termgame.py:45-48 | `__iter__`: one triple per cell, layers in insertion order and cells in insertion order within each; `BucketIsEntry` and `EntryIsBucket` relate it to the buckets |
| Occupancy.BucketIsEntry | termgame.py:45-48 | every existing bucket, even an empty one, is visited by `__iter__` |
| Occupancy.EntryIsBucket | termgame.py:45-48 | every triple `__iter__` yields is the bucket stored under its own keys |
| Occupancy.EntriesAppend | termgame.py:46-48 | iterating two runs of layers is iterating one, then the other |
| CollisionMaps.CollisionMap.constructor | termgame.py:40-42 | a new collision map is empty |
| CollisionMaps.CollisionMap.AddObj | termgame.py:50-51 | the map after `add_obj` is `Add` of the map before, still well formed |
| CollisionMaps.CollisionMap.RemoveObj | termgame.py:53-55 | the map after `remove_obj` is `Remove` of the map before, still well formed |
| Conflicts.DetectCollisions | termgame.py:57-63 | exactly the iterated buckets holding more than one object |
| Conflicts.RbOnly | termgame.py:79-83 | the narrowing holds exactly the rigidbody members of a bucket |
| Conflicts.RbOnlyCount | termgame.py:79-84 | each rigidbody appears in the narrowing as often as in the bucket, so a bucket listing one rigidbody twice is a conflict |
| Conflicts.RbOnlyAppend | termgame.py:79-83 | narrowing keeps bucket order: the narrowing of a concatenation is the concatenation of the narrowings |
| Conflicts.FirstQualifying | termgame.py:73-87 | the first collision that passes the filters and has two or more rigidbodies; none before it qualifies |
| Conflicts.GetRbCollisions | termgame.py:68-91 | without `single` the result is always `None`; a result is the rigidbody view of a qualifying bucket of the map; with `single`, `None` means no bucket qualifies |
| Conflicts.GetRbCollisionsIsFirst | termgame.py:68-91 | the reported conflict is the first qualifying triple in iteration order |
| Conflicts.FirstQualifyingOfDetected | termgame.py:57-63 | dropping buckets of fewer than two objects never changes which qualifying triple comes first |
| Conflicts.SkipDetected | termgame.py:57-63 | a first bucket that does not qualify is passed over, whether or not it is a collision: the search finds the same triple in the rest |
| Conflicts.FetchedConflict | termgame.py:286 | the conflict the resolver fetches lies in the map and lists exactly that bucket's rigidbodies, at least two |
| CollisionReports.OthersOf | termgame.py:293-294 | each member is told the member list with its first occurrence removed, the rest in bucket order (by `RemoveFirstIsFirst`) |
| CollisionReports.Extend | termgame.py:295 | `rigidbody_collisions[id].extend(others)`: the list grows at its end, and a new key is listed last; `ExtendValid` and `ExtendGrows` state what that means |
| CollisionReports.Record | termgame.py:291-295 | one conflict recorded member by member, each given the members without itself; `RecordPeers` states what that means |
| CollisionReports.ExtendValid | termgame.py:295 | `extend` on the defaultdict keeps every key listed once |
| CollisionReports.ExtendGrows | termgame.py:295 | `extend` creates the key if needed and appends the peers at the end of its list |
| CollisionReports.GrowsKeeps | termgame.py:276 | a report once made is never lost as the reports grow |
| CollisionReports.GrowsKeepsAll | termgame.py:276 | every member seeing every other member survives further growth |
| CollisionReports.RecordUpToValid | termgame.py:291-295 | recording the first members of a conflict keeps the reports a well-formed dictionary |
| CollisionReports.RecordUpToGrows | termgame.py:291-295 | recording more members only grows the reports |
| CollisionReports.RecordMemberSees | termgame.py:291-295 | once a member has been given its others, its report lists each of them |
| CollisionReports.RecordPeers | termgame.py:291-295 | recording a conflict keeps every earlier report, and each member's report then lists every other member |
| CollisionReports.RecordConflict | termgame.py:291-295 | the loop over members yields the reports of `Record` |
| CollisionReports.NotesOf | termgame.py:315-318 | one notification per report key still in `active_objects`, in key order; `NotesOfExact`, `NotesOfDistinct` and `NotesOfAppend` state what that means |
| CollisionReports.NotesOfExact | termgame.py:315-318 | exactly the still-active reported objects are notified, each with its whole report, and there are no more notes than report keys |
| CollisionReports.NotesOfDistinct | termgame.py:315-318 | when each key is listed once, as in valid reports, no object is notified twice |
| CollisionReports.NotesOfAppend | termgame.py:315-318 | notes follow the order of the report keys: notifying a concatenation of key lists is notifying each in turn |
| CollisionReports.Notify | termgame.py:315-318 | the notification loop over the report keys in insertion order yields `NotesOf` |
| Resolution.Shift | termgame.py:282-285 | `remove_obj` from one bucket then `add_obj` to another of the same layer; `ShiftMoves` states what that means |
| Resolution.Relocate | termgame.py:281-285 | one popped request: the object shifts from its recorded position to the requested one under its layer |
| Resolution.Drain | termgame.py:280-285 | requests are popped from the end of the list until it is empty; `DrainKeepsOthers` states what that keeps |
| Resolution.ShiftMoves | termgame.py:282-285 | remove-then-add moves exactly one occurrence of an object sitting in the source bucket to the target, and otherwise only adds it at the target |
| Resolution.DrainKeepsOthers | termgame.py:280-285 | draining the requests keeps the map well formed and leaves every occurrence of an object without a request where it was |
| Resolution.CountOffAppend | termgame.py:288-310 | the count of off-position occurrences is additive over concatenation |
| Resolution.CountOffPerm | termgame.py:288-310 | that count does not depend on the order of the occurrences |
| Resolution.CountOffRemove | termgame.py:288-310 | taking one occurrence out of the bag lowers the count by exactly its own contribution |
| Resolution.Revert | termgame.py:297-305 | the member shifts from the conflict cell to its recorded position; `RevertMoves` states what that means |
| Resolution.RevertMoves | termgame.py:296-305 | reverting an off member moves one of its occurrences to its recorded position, so exactly one fewer occurrence is off |
| Resolution.OccHasSlot | termgame.py:311-312 | an object in a bucket appears in the iteration under that bucket's keys |
| Resolution.FirstOff | termgame.py:296-297 | the first conflict member whose recorded position differs from the conflict cell; all before it record that cell |
| Resolution.Fetch | termgame.py:286 | the resolver's fetch: `get_rb_collisions(single=True)` with no filters |
| Resolution.Refetch | termgame.py:307-309 | the fetch at the end of a round, emptied when it returns a conflict already marked unresolvable |
| Resolution.FirstOffNone | termgame.py:306-307 | with no off member, every member records the conflict cell itself |
| Resolution.Repair | termgame.py:296-306 | revert the first off member, or mark the conflict unresolvable when no member is off; `RepairProgress` and `RepairKeeps` state what that means |
| Resolution.RepairProgress | termgame.py:296-309 | one round either reverts a member, lowering the off count by one, or leaves the map as it was, and the refetch then ends the loop |
| Resolution.Resolve | termgame.py:288-310 | the resolution loop terminates, with the map well formed, and the conflict left is none or one already marked unresolvable |
| Resolution.ResolveUnfold | termgame.py:288-310 | one round of the loop is record, repair, refetch |
| Resolution.ResolveUnresolvable | termgame.py:306-307 | the unresolvable list only grows, and only with conflicts none of whose members can go back |
| Resolution.ResolveOccurrences | termgame.py:288-310 | resolution keeps the number of occurrences and every object's count of them; no occurrence at its object's recorded position leaves, no occurrence off it arrives, and the off count never rises |
| Resolution.RepairKeeps | termgame.py:296-306 | one repair keeps every object's number of occurrences, lets no occurrence leave its object's recorded position, and brings none off it |
| Resolution.RevertKeeps | termgame.py:297-305 | a revert trades one off occurrence of the member for one at its recorded position, so every object's count stays |
| Resolution.TradeKeeps | termgame.py:297-305 | trading an occurrence off its object's recorded position for one of the same object at it keeps every object's count, takes nothing from its recorded position and adds nothing off it |
| Resolution.IdCountPerm | termgame.py:288-310 | an object's number of occurrences does not depend on their order |
| Resolution.ResolveReports | termgame.py:291-295 | the reports stay a well-formed dictionary and only grow |
| Resolution.ResolveReportsFirst | termgame.py:286-295 | all members of the first conflict of a tick see one another in the final reports |
| Resolution.ResolveStopsAtStuck | termgame.py:306-310 | a first conflict whose members all sit where they record becomes the only unresolvable one, and the loop stops with the map untouched, even with resolvable conflicts further on |
| Resolution.Settle | termgame.py:280-310 | draining then resolving leaves a well-formed map, well-formed reports, and no conflict unless an unresolvable one |
| Resolution.WriteBack | termgame.py:311-313 | each occurrence in iteration order sets its object's position to its key; `WriteBackLast` states the result |
| Resolution.WriteBackLast | termgame.py:311-313 | the write-back keeps the same ids; an object that does not occur keeps its record; one that does records the key of its last occurrence |
| Resolution.WriteBackStep | termgame.py:312-313 | one more occurrence sets its object's position to its key |
| Resolution.LastKeyOccurs | termgame.py:311-313 | the key an object is last seen under is the key of one of its occurrences |
| Resolution.LastKeyFound | termgame.py:311-313 | an object with an occurrence is seen in the iteration |
| Resolution.WriteBackSettles | termgame.py:311-313 | an object seen under one position only ends up recording that position |
| Control.OnKey | termgame.py:128-137 | `q` pauses a running game (the test of termgame.py:181-182); while paused `r` resumes and `q` quits; `:` toggles debug only while running (termgame.py:183-184); the empty key and a quit game change nothing |
| Control.OnKeys | termgame.py:156-161 | the keys read by successive loop turns, one `OnKey` step each; `QuitIsFinal` and `PauseResume` state what it keeps |
| Control.QuitIsFinal | termgame.py:136-137 | no key sequence leaves the quit state |
| Control.PauseResume | termgame.py:132-135 | `q` then `r` returns a running game exactly to its state, debug flag included |
| Control.ToggleTwice | termgame.py:183-184 | pressing `:` twice while running restores the debug flag |
| Control.FrameReady | termgame.py:229-239 | with no (or zero) last frame time a frame is due; otherwise it is due exactly when more than the frame delay has passed |
| Pathfinding.Candidates | termgame.py:346 | the four candidates are exactly the 4-neighbours |
| Pathfinding.KeepInGrid | termgame.py:347-352 | exactly the candidates within the screen bounds, and no more of them than there are candidates |
| Pathfinding.KeepInGridAppend | termgame.py:346-352 | the filter keeps the candidates' order: filtering a concatenation is filtering each part in turn |
| Pathfinding.Neighbors | termgame.py:343-353 | the neighbours are exactly the adjacent positions on the screen, at most four |
| Pathfinding.GetNeighbors | termgame.py:343-353 | the filtering loop returns `Neighbors` |
| Pathfinding.Insert | termgame.py:356 | `put` adds one copy of the position to the queue (duplicates kept) |
| Pathfinding.InsertSorted | termgame.py:363 | the queue stays sorted, so `get` takes the least position in (row, column) order |
| Pathfinding.InsertMembers | termgame.py:374 | after `put` the queue holds the old positions and the new one, and nothing else |
| Pathfinding.RelaxTree | termgame.py:367-375 | lowering a neighbour's cost and recording where it came from keeps the `came_from` chain strictly cost-decreasing down to the start |
| Pathfinding.Relax | termgame.py:366-375 | relaxing one neighbour keeps the search invariants: tree, queued positions, sorted queue |
| Pathfinding.PotentialDrops | termgame.py:362-374 | lowering an explored cost lowers the termination measure |
| Pathfinding.Descends | termgame.py:368-369 | every accepted relaxation strictly lowers the termination measure |
| Pathfinding.RoomForNew | termgame.py:368-369 | while a screen position is unexplored, fewer positions are explored than there are screen positions plus the start |
| Pathfinding.FewerKeys | termgame.py:358 | the explored set is no larger than the positions it is drawn from |
| Pathfinding.KeysInUniverse | termgame.py:358-369 | only the start and screen positions are ever explored |
| Pathfinding.QueuedExtend | termgame.py:366 | each neighbour handled by the inner loop is explored |
| Pathfinding.VisitNeighbor | termgame.py:366-375 | a neighbour that is new, or that `current` reaches more cheaply, gets cost + 1, records `current` and is queued; any other neighbour changes nothing; either way the neighbour ends up explored |
| Pathfinding.Visit | termgame.py:365-375 | after the inner loop every neighbour of the current position is explored, the tree and the sorted queue are kept, and the measure dropped unless nothing changed |
| Pathfinding.Walk | termgame.py:343-353 | when every explored position has all its neighbours explored, every screen position is explored (the screen is connected) |
| Pathfinding.StillClosed | termgame.py:362-374 | after a position is taken and visited, every explored position is again queued or has all its neighbours explored |
| Pathfinding.Explore | termgame.py:355-375 | the search loop terminates with a `came_from` tree; with start and target on screen the target is explored |
| Pathfinding.Reverse | termgame.py:381 | `reverse` puts the elements in the opposite order |
| Pathfinding.Reconstruct | termgame.py:376-382 | reconstruction raises `KeyError` exactly when the target is unexplored; otherwise it yields a path of adjacent on-screen steps from next to the start to the target, empty when target is start |
| Pathfinding.Pathfind | termgame.py:342-382 | `None` start or target raises `TypeError` or `KeyError` as the code does; a found path is a path; any other error with both positions given is `KeyError`, and an off-screen target other than the start raises it; between two screen positions a path is always found |
| Engine.Newest | termgame.py:246-248 | the new log line goes first, the old lines follow in order, and the log holds at most fifteen lines |
| Engine.Rebuilt | termgame.py:326-332 | the rebuilt map: every registered collider added under its layer and recorded position, in registry order; `RebuiltOcc` states what it holds |
| Engine.RebuiltOcc | termgame.py:326-332 | the rebuilt map is well formed and holds one occurrence per registered collider, under its layer and recorded position (`None` included) |
| Engine.WriteBackRegistry | termgame.py:311-313 | writing positions back keeps every object under its own id |
| Engine.Deregister | termgame.py:390 | `del` removes exactly that id from the registry and keeps the order of the rest |
| Engine.BuildIndex | termgame.py:326-332 | the rebuild loop yields `Rebuilt` of the registry |
| Engine.FindOff | termgame.py:296-297 | the search for the member to revert finds `FirstOff` |
| Engine.RepairConflict | termgame.py:296-307 | one repair on the collision map object is `Repair` of the map before |
| Engine.ResolveRound | termgame.py:289-309 | one round records the conflict, repairs it and refetches, as `Record`, `Repair`, `Refetch` |
| Engine.ResolveConflicts | termgame.py:286-310 | the loop on the collision map leaves exactly the outcome of `Resolve` |
| Engine.WriteBackPositions | termgame.py:311-313 | the nested write-back loop yields `WriteBack` over the map's occurrences |
| Engine.WriteBackEntry | termgame.py:312-313 | the inner loop over one bucket extends the write-back by that bucket's occurrences, in order |
| Engine.ResolveTick | termgame.py:286-318 | resolution, write-back and notification on the collision map object match `Settle` with no requests, `WriteBack` over its occurrences and `NotesOf` its reports; the registry keeps its shape and every active id stays registered |
| Engine.TermGame.constructor | termgame.py:18-36 | a new game has empty registry, requests, map and log, id counter 0, debug on, bounds one less than the screen size |
| Engine.TermGame.Log | termgame.py:246-248 | the log becomes `Newest` of the old log and the stamped line; nothing else changes |
| Engine.TermGame.NewObject | termgame.py:111-126 | the object gets the next id, which was never used, and joins the registry at its end |
| Engine.TermGame.SpawnObj | termgame.py:194-218 | an unknown label changes nothing; a known one registers a new object at the position and adds it to its layer's bucket there |
| Engine.TermGame.DestroyObject | termgame.py:384-393 | an unregistered id raises `KeyError` with nothing changed; otherwise the id leaves the registry and one occurrence leaves its recorded bucket |
| Engine.TermGame.Move | termgame.py:270-271 | the request is appended at the end of the request list |
| Engine.TermGame.MoveRel | gameobject.py:47-55 | a placed object requests its position shifted by the delta; an unplaced one requests nothing and logs the message |
| Engine.TermGame.DrainRequests | termgame.py:280-285 | requests are popped from the end until none is left, each moving an occurrence from the recorded position to the target |
| Engine.TermGame.SettleConflicts | termgame.py:286-318 | on a drained request list, the map becomes the settled index, every object records the key of its last occurrence, the notes go to the active reported objects, and the registry, the log and the flags are unchanged |
| Engine.TermGame.MoveObjects | termgame.py:273-318 | with no request nothing changes; otherwise the map is the settled one, every object records its last bucket key, the requests are empty, and the notes go to active reported objects |
| Engine.TermGame.LoadScene | termgame.py:139-149 | a known scene changes nothing; an unknown one switches debug on and logs the message |
| Engine.TermGame.ReadyForNextFrame | termgame.py:229-239 | with no last frame time the frame is due |
| Engine.TermGame.AlwaysReady | termgame.py:28 | the last frame time is never set, so every frame is drawn |
| Engine.TermGame.RebuildCollisionMap | termgame.py:326-332 | a fresh map holding every registered collider under its layer and recorded position |
| Engine.TermGame.DrawFrame | termgame.py:220-227 | a frame is always due, so the map is rebuilt from the registry |
| Engine.TermGame.Loop | termgame.py:156-161 | a tick reads the clock, moves the objects and draws, leaving no requests and a map rebuilt from the written-back positions |
| Engine.TermGame.Pathfind | termgame.py:342-382 | a search from the object's recorded position on this game's screen with every outcome of `Pathfinding.Pathfind`: the `None` cases, a found path is a path, `KeyError` as the only other error, an off-screen target other than the start raises it, and between screen positions a path is found |
| Engine.TermGame.FindObjectByLabel | termgame.py:395-411 | exactly the registered objects with that label, in registry order |
| Engine.TermGame.GetObjectsAtPosition | termgame.py:413-434 | exactly the layers passing the filter (a `0` filter is ignored) that have a bucket at the position, each with that bucket |

## Left out

- Screen I/O through curses: reading the screen size, reading keys, drawing, erasing and refreshing. The screen bounds and the clock reading are parameters, and drawing is not modelled.
- The reflective discovery of resources in `__load_resources`, and the instantiation of resource classes. Resources are a parameter mapping each label to the collision profile its class gives. `load_scene` builds no scene.
- The behaviour callbacks `update`, `handle_input`, `on_collision` and the body of `on_rigidbody_collision`: subclasses override them. `__move_objects` returns its notifications (object id and peer ids) instead of calling them.
- Input dispatch to objects' key maps, in `__handle_input`, and `__update_objects`: both call the callbacks above.
- Floating-point time: `get_time_delta`, the `0.01` frame delay and the timestamp text of `log`. Time is integer nanoseconds, and a log line stores the time, the caller's label and the message as separate fields.
- The blocking pause loop and `sys.exit` of `__stop_game`. They are modelled as a pure transition on keys; the pause status text on screen is not modelled.
- The internals and locking of Python's `PriorityQueue`. The frontier is a sorted sequence of positions, which allows duplicates.
- The priority computed at termgame.py:370-373 is discarded by the queue, so it is not modelled, except that computing it with no target raises `TypeError`.
- The `get_collisions` stub, which returns nothing.
- Sprites, `get_sprite` and the sprite frame fields.
- The `mass` and `fixed` fields: the profile carries them, but nothing reads them.
- The `parent` argument of `spawn_obj` and `__new_game_object`: nothing in the core reads it.
- Engine.TermGame.MoveObjects: the write-back is modelled over objects that were ever spawned. An object the game never spawned cannot appear in the map here.
- The `label` of the game itself is the constant caller name `"game"` in the log.
