/**
 * `TermGame.CollisionMap` as an object: its one field is the layered index, which
 * `add_obj` and `remove_obj` update in place.
 */
module CollisionMaps {
  import opened GameObjects
  import opened Lists
  import opened Occupancy

  class CollisionMap {
    var layers: Index

    ghost predicate Valid()
      reads this
    {
      WellFormed(layers)
    }

    /** A fresh map is empty. */
    constructor ()
      ensures Valid() && layers == []
    {
      layers := [];
    }

    /**
     * `add_obj`: one more occurrence in bucket `(layer, key)`. What that means for the
     * buckets and the occurrences is stated by `AddBuckets` and `AddOcc`.
     */
    method AddObj(layer: int, key: Key, id: Id)
      requires Valid()
      modifies this
      ensures Valid()
      ensures layers == Add(old(layers), layer, key, id)
    {
      SetBucketWellFormed(layers, layer, key, Bucket(layers, layer, key) + [id]);
      layers := SetBucket(layers, layer, key, Bucket(layers, layer, key) + [id]);
    }

    /**
     * `remove_obj`: the first occurrence of `id` leaves bucket `(layer, key)` when there is
     * one. What that means for the buckets and the occurrences is stated by `RemoveBuckets`
     * and `RemoveOcc`.
     */
    method RemoveObj(layer: int, key: Key, id: Id)
      requires Valid()
      modifies this
      ensures Valid()
      ensures layers == Remove(old(layers), layer, key, id)
    {
      var s := Bucket(layers, layer, key);
      if id in s {
        s := RemoveFirst(s, id);
      }
      SetBucketWellFormed(layers, layer, key, s);
      layers := SetBucket(layers, layer, key, s);
    }
  }
}
