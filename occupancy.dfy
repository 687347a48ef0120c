/**
 * The layered occupancy index of the engine (`TermGame.CollisionMap`), as a value.
 *
 * The engine keeps a dictionary of dictionaries `layer -> position -> list of objects`.
 * Python dictionaries iterate in insertion order, so the index is a sequence of layers,
 * each holding a sequence of cells; a cell's list is its bucket. Both levels behave as
 * `defaultdict`s: touching a missing key creates it with an empty value.
 */
module Occupancy {
  import opened Wrappers
  import opened GameObjects
  import opened Lists

  datatype Cell = Cell(key: Key, objs: seq<Id>)
  datatype Layer = Layer(layer: int, cells: seq<Cell>)
  type Index = seq<Layer>

  /** One triple `(layer, position, list)` produced by iterating the map. */
  datatype Entry = Entry(layer: int, key: Key, objs: seq<Id>)

  /** One occurrence of an object in one bucket. */
  datatype Slot = Slot(layer: int, key: Key, id: Id)

  /** Dictionary keys are unique, at both levels. */
  ghost predicate WellFormed(ix: Index) {
    && (forall i, j :: 0 <= i < j < |ix| ==> ix[i].layer != ix[j].layer)
    && (forall i :: 0 <= i < |ix| ==> DistinctKeys(ix[i].cells))
  }

  ghost predicate DistinctKeys(cs: seq<Cell>) {
    forall i, j :: 0 <= i < j < |cs| ==> cs[i].key != cs[j].key
  }

  /** Where layer `l` sits in the index, or `|ix|` when the index has no such layer. */
  function LayerAt(ix: Index, l: int): (i: nat)
    ensures i <= |ix|
    ensures i < |ix| ==> ix[i].layer == l
    ensures forall j :: 0 <= j < i ==> ix[j].layer != l
  {
    if ix == [] then 0
    else if ix[0].layer == l then 0
    else 1 + LayerAt(ix[1..], l)
  }

  /** Where key `k` sits among the cells, or `|cs|` when there is no such cell. */
  function CellAt(cs: seq<Cell>, k: Key): (j: nat)
    ensures j <= |cs|
    ensures j < |cs| ==> cs[j].key == k
    ensures forall i :: 0 <= i < j ==> cs[i].key != k
  {
    if cs == [] then 0
    else if cs[0].key == k then 0
    else 1 + CellAt(cs[1..], k)
  }

  /** Whether `map[l][k]` exists (possibly as an empty list). */
  predicate HasCell(ix: Index, l: int, k: Key) {
    var i := LayerAt(ix, l);
    i < |ix| && CellAt(ix[i].cells, k) < |ix[i].cells|
  }

  /** The list `map[l][k]`, empty when the key is missing. */
  function Bucket(ix: Index, l: int, k: Key): seq<Id> {
    var i := LayerAt(ix, l);
    if i == |ix| then []
    else
      var j := CellAt(ix[i].cells, k);
      if j == |ix[i].cells| then [] else ix[i].cells[j].objs
  }

  /** Replaces the list of cell `k`, appending the cell when it is missing. */
  function SetCell(cs: seq<Cell>, k: Key, s: seq<Id>): seq<Cell> {
    var j := CellAt(cs, k);
    if j == |cs| then cs + [Cell(k, s)] else cs[j := Cell(k, s)]
  }

  /**
   * `map[l][k] = s` on the defaultdict: an existing bucket is replaced in place,
   * a missing layer or position is appended after the existing ones.
   */
  function SetBucket(ix: Index, l: int, k: Key, s: seq<Id>): Index {
    var i := LayerAt(ix, l);
    if i == |ix| then ix + [Layer(l, [Cell(k, s)])]
    else ix[i := ix[i].(cells := SetCell(ix[i].cells, k, s))]
  }

  /** `add_obj`: append one occurrence (duplicates are kept). */
  function Add(ix: Index, l: int, k: Key, id: Id): Index {
    SetBucket(ix, l, k, Bucket(ix, l, k) + [id])
  }

  /** `remove_obj`: drop the first occurrence, if any; the lookup creates the bucket. */
  function Remove(ix: Index, l: int, k: Key, id: Id): Index {
    SetBucket(ix, l, k, RemoveFirst(Bucket(ix, l, k), id))
  }

  /** The entries of one layer, in cell order. */
  function CellEntries(l: int, cs: seq<Cell>): (es: seq<Entry>)
    ensures |es| == |cs|
    ensures forall j :: 0 <= j < |cs| ==> es[j] == Entry(l, cs[j].key, cs[j].objs)
  {
    if cs == [] then []
    else CellEntries(l, cs[..|cs| - 1]) + [Entry(l, cs[|cs| - 1].key, cs[|cs| - 1].objs)]
  }

  /** `__iter__`: every bucket, layer by layer, in insertion order. */
  function Entries(ix: Index): seq<Entry> {
    if ix == [] then []
    else Entries(ix[..|ix| - 1]) + CellEntries(ix[|ix| - 1].layer, ix[|ix| - 1].cells)
  }

  function SlotsOf(l: int, k: Key, objs: seq<Id>): seq<Slot> {
    seq(|objs|, n requires 0 <= n < |objs| => Slot(l, k, objs[n]))
  }

  /** The occurrences of a sequence of entries, in iteration order. */
  function OccOf(es: seq<Entry>): seq<Slot> {
    if es == [] then []
    else OccOf(es[..|es| - 1]) + SlotsOf(es[|es| - 1].layer, es[|es| - 1].key, es[|es| - 1].objs)
  }

  /** Every occurrence of every object in the index, in iteration order. */
  function Occ(ix: Index): seq<Slot> {
    OccOf(Entries(ix))
  }

  // ---------------------------------------------------------------------------
  // Lemmas about the shape of the index

  lemma {:induction false} CellEntriesAppend(l: int, a: seq<Cell>, b: seq<Cell>)
    ensures CellEntries(l, a + b) == CellEntries(l, a) + CellEntries(l, b)
  {
    var lhs, rhs := CellEntries(l, a + b), CellEntries(l, a) + CellEntries(l, b);
    assert |lhs| == |rhs|;
    forall j | 0 <= j < |lhs| ensures lhs[j] == rhs[j] {
      if j < |a| {
        assert (a + b)[j] == a[j];
      } else {
        assert (a + b)[j] == b[j - |a|];
      }
    }
  }

  lemma {:induction false} EntriesAppend(a: Index, b: Index)
    ensures Entries(a + b) == Entries(a) + Entries(b)
  {
    if b == [] {
      assert a + b == a;
    } else {
      var b', L := b[..|b| - 1], b[|b| - 1];
      assert (a + b)[..|a + b| - 1] == a + b' && (a + b)[|a + b| - 1] == L;
      EntriesAppend(a, b');
      var last := CellEntries(L.layer, L.cells);
      assert Entries(a + b) == Entries(a + b') + last;
      assert Entries(b) == Entries(b') + last;
      assert Entries(a) + Entries(b') + last == Entries(a) + (Entries(b') + last);
    }
  }

  lemma {:induction false} OccOfAppend(a: seq<Entry>, b: seq<Entry>)
    ensures OccOf(a + b) == OccOf(a) + OccOf(b)
  {
    if b == [] {
      assert a + b == a;
    } else {
      var b', e := b[..|b| - 1], b[|b| - 1];
      assert (a + b)[..|a + b| - 1] == a + b' && (a + b)[|a + b| - 1] == e;
      OccOfAppend(a, b');
      var last := SlotsOf(e.layer, e.key, e.objs);
      assert OccOf(a + b) == OccOf(a + b') + last;
      assert OccOf(b) == OccOf(b') + last;
      assert OccOf(a) + OccOf(b') + last == OccOf(a) + (OccOf(b') + last);
    }
  }

  lemma OccOfSingle(e: Entry)
    ensures OccOf([e]) == SlotsOf(e.layer, e.key, e.objs)
  {
    assert [e][..0] == [];
  }

  lemma SlotsOfAppend(l: int, k: Key, a: seq<Id>, b: seq<Id>)
    ensures SlotsOf(l, k, a + b) == SlotsOf(l, k, a) + SlotsOf(l, k, b)
  {
    var lhs, rhs := SlotsOf(l, k, a + b), SlotsOf(l, k, a) + SlotsOf(l, k, b);
    forall n | 0 <= n < |lhs| ensures lhs[n] == rhs[n] {
      if n < |a| {
        assert (a + b)[n] == a[n];
      } else {
        assert (a + b)[n] == b[n - |a|];
      }
    }
  }

  /** One more object of a bucket, one more occurrence. */
  lemma SlotsPrefixStep(l: int, k: Key, objs: seq<Id>, j: nat)
    requires j < |objs|
    ensures SlotsOf(l, k, objs[..j + 1]) == SlotsOf(l, k, objs[..j]) + [Slot(l, k, objs[j])]
  {
    assert objs[..j + 1] == objs[..j] + [objs[j]];
    SlotsOfAppend(l, k, objs[..j], [objs[j]]);
    assert SlotsOf(l, k, [objs[j]]) == [Slot(l, k, objs[j])];
  }

  /** What `map[l][k]` holds before, as entries: the one entry, or nothing when it is missing. */
  function Mid(ix: Index, l: int, k: Key): seq<Entry> {
    if HasCell(ix, l, k) then [Entry(l, k, Bucket(ix, l, k))] else []
  }

  /** The iteration of an index with one layer replaced. */
  lemma EntriesUpdate(ix: Index, i: nat, L: Layer)
    requires i < |ix|
    ensures Entries(ix[i := L]) == Entries(ix[..i]) + CellEntries(L.layer, L.cells) + Entries(ix[i + 1..])
  {
    assert ix[i := L] == ix[..i] + [L] + ix[i + 1..];
    EntriesAppend(ix[..i] + [L], ix[i + 1..]);
    EntriesAppend(ix[..i], [L]);
    assert [L][..0] == [];
  }

  lemma Regroup<T>(a: seq<T>, b: seq<T>, c: seq<T>, d: seq<T>, e: seq<T>)
    ensures a + (b + c + d) + e == (a + b) + c + (d + e)
  {
  }

  /** Setting one cell changes exactly one entry of the layer (or appends it). */
  lemma CellEntriesSetCell(l: int, cs: seq<Cell>, k: Key, s: seq<Id>) returns (ca: seq<Entry>, cb: seq<Entry>)
    ensures var j := CellAt(cs, k);
      CellEntries(l, cs) == ca + (if j < |cs| then [Entry(l, k, cs[j].objs)] else []) + cb
    ensures CellEntries(l, SetCell(cs, k, s)) == ca + [Entry(l, k, s)] + cb
  {
    var j := CellAt(cs, k);
    if j == |cs| {
      CellEntriesAppendOne(l, cs, Cell(k, s));
      ca, cb := CellEntries(l, cs), [];
      assert CellEntries(l, cs) == ca + [] + cb;
      assert CellEntries(l, SetCell(cs, k, s)) == ca + [Entry(l, k, s)] + cb;
    } else {
      ca, cb := CellEntriesReplace(l, cs, j, Cell(k, s));
      assert CellEntries(l, cs) == ca + [Entry(l, k, cs[j].objs)] + cb;
      assert CellEntries(l, SetCell(cs, k, s)) == ca + [Entry(l, k, s)] + cb;
    }
  }

  /** Appending a cell appends its entry. */
  lemma CellEntriesAppendOne(l: int, cs: seq<Cell>, c: Cell)
    ensures CellEntries(l, cs + [c]) == CellEntries(l, cs) + [Entry(l, c.key, c.objs)]
  {
    assert (cs + [c])[..|cs|] == cs;
  }

  /** Replacing the cell at `j` replaces the entry at `j`. */
  lemma CellEntriesReplace(l: int, cs: seq<Cell>, j: nat, c: Cell) returns (ca: seq<Entry>, cb: seq<Entry>)
    requires j < |cs|
    ensures CellEntries(l, cs) == ca + [Entry(l, cs[j].key, cs[j].objs)] + cb
    ensures CellEntries(l, cs[j := c]) == ca + [Entry(l, c.key, c.objs)] + cb
  {
    ca, cb := CellEntries(l, cs[..j]), CellEntries(l, cs[j + 1..]);
    assert cs == cs[..j] + [cs[j]] + cs[j + 1..];
    assert cs[j := c] == cs[..j] + [c] + cs[j + 1..];
    CellEntriesAppend(l, cs[..j] + [cs[j]], cs[j + 1..]);
    CellEntriesAppend(l, cs[..j], [cs[j]]);
    CellEntriesAppend(l, cs[..j] + [c], cs[j + 1..]);
    CellEntriesAppend(l, cs[..j], [c]);
    assert [cs[j]][..0] == [] && [c][..0] == [];
  }

  /**
   * Setting one bucket changes exactly one entry of the iteration (or appends it),
   * and leaves every other entry, and the order of all of them, as it was.
   */
  lemma EntriesSetBucket(ix: Index, l: int, k: Key, s: seq<Id>) returns (ea: seq<Entry>, eb: seq<Entry>)
    ensures Entries(ix) == ea + Mid(ix, l, k) + eb
    ensures Entries(SetBucket(ix, l, k, s)) == ea + [Entry(l, k, s)] + eb
  {
    var i := LayerAt(ix, l);
    if i == |ix| {
      var ix' := ix + [Layer(l, [Cell(k, s)])];
      assert ix'[..|ix'| - 1] == ix;
      assert CellEntries(l, [Cell(k, s)]) == [Entry(l, k, s)];
      assert Mid(ix, l, k) == [];
      ea, eb := Entries(ix), [];
    } else {
      var cs := ix[i].cells;
      var ca, cb := CellEntriesSetCell(l, cs, k, s);
      var j := CellAt(cs, k);
      var mid := if j < |cs| then [Entry(l, k, cs[j].objs)] else [];
      assert Mid(ix, l, k) == mid;
      var e1, e3 := Entries(ix[..i]), Entries(ix[i + 1..]);
      EntriesUpdate(ix, i, ix[i]);
      assert ix[i := ix[i]] == ix;
      assert Entries(ix) == e1 + CellEntries(l, cs) + e3;
      var L' := ix[i].(cells := SetCell(cs, k, s));
      EntriesUpdate(ix, i, L');
      assert SetBucket(ix, l, k, s) == ix[i := L'];
      assert Entries(SetBucket(ix, l, k, s)) == e1 + CellEntries(l, L'.cells) + e3;
      Regroup(e1, ca, mid, cb, e3);
      Regroup(e1, ca, [Entry(l, k, s)], cb, e3);
      ea, eb := e1 + ca, cb + e3;
    }
  }

  /** The same at the level of occurrences: one bucket's occurrences are replaced in place. */
  lemma OccSetBucket(ix: Index, l: int, k: Key, s: seq<Id>) returns (a: seq<Slot>, b: seq<Slot>)
    ensures Occ(ix) == a + SlotsOf(l, k, Bucket(ix, l, k)) + b
    ensures Occ(SetBucket(ix, l, k, s)) == a + SlotsOf(l, k, s) + b
  {
    var ea, eb := EntriesSetBucket(ix, l, k, s);
    var mid := Mid(ix, l, k);
    OccOfAppend(ea + mid, eb);
    OccOfAppend(ea, mid);
    OccOfAppend(ea + [Entry(l, k, s)], eb);
    OccOfAppend(ea, [Entry(l, k, s)]);
    OccOfSingle(Entry(l, k, s));
    if HasCell(ix, l, k) {
      OccOfSingle(Entry(l, k, Bucket(ix, l, k)));
    } else {
      assert OccOf(mid) == [] == SlotsOf(l, k, Bucket(ix, l, k));
    }
    a, b := OccOf(ea), OccOf(eb);
  }

  lemma SetBucketWellFormed(ix: Index, l: int, k: Key, s: seq<Id>)
    requires WellFormed(ix)
    ensures WellFormed(SetBucket(ix, l, k, s))
  {
    var i := LayerAt(ix, l);
    if i < |ix| {
      var cs := ix[i].cells;
      var cs' := SetCell(cs, k, s);
      assert DistinctKeys(cs') by {
        if CellAt(cs, k) == |cs| {
          forall a, b | 0 <= a < b < |cs'| ensures cs'[a].key != cs'[b].key {
            if b == |cs| {
              assert cs'[a] == cs[a];
            }
          }
        }
      }
    }
  }

  /** Finding a layer only looks at the layer keys. */
  lemma LayerAtKeys(a: Index, b: Index, l: int)
    requires |a| == |b| && forall j :: 0 <= j < |a| ==> a[j].layer == b[j].layer
    ensures LayerAt(a, l) == LayerAt(b, l)
  {
  }

  lemma LayerAtAppend(a: Index, L: Layer, l: int)
    ensures LayerAt(a + [L], l) == if LayerAt(a, l) < |a| then LayerAt(a, l) else if L.layer == l then |a| else |a| + 1
  {
    forall j | 0 <= j < |a| ensures (a + [L])[j] == a[j] {}
    assert (a + [L])[|a|] == L;
  }

  lemma CellAtKeys(a: seq<Cell>, b: seq<Cell>, k: Key)
    requires |a| == |b| && forall j :: 0 <= j < |a| ==> a[j].key == b[j].key
    ensures CellAt(a, k) == CellAt(b, k)
  {
  }

  lemma CellAtAppend(a: seq<Cell>, c: Cell, k: Key)
    ensures CellAt(a + [c], k) == if CellAt(a, k) < |a| then CellAt(a, k) else if c.key == k then |a| else |a| + 1
  {
    forall j | 0 <= j < |a| ensures (a + [c])[j] == a[j] {}
    assert (a + [c])[|a|] == c;
  }

  lemma BucketSetBucketNewLayer(ix: Index, l: int, k: Key, s: seq<Id>, l': int, k': Key)
    requires LayerAt(ix, l) == |ix|
    ensures Bucket(SetBucket(ix, l, k, s), l', k') == if l' == l && k' == k then s else Bucket(ix, l', k')
    ensures HasCell(SetBucket(ix, l, k, s), l', k') == ((l' == l && k' == k) || HasCell(ix, l', k'))
  {
    LayerAtAppend(ix, Layer(l, [Cell(k, s)]), l');
    if l' == l {
      assert CellAt([Cell(k, s)], k') == if k' == k then 0 else 1;
    }
  }

  /** Looking a key up after setting one cell of a layer. */
  lemma SetCellLookup(cs: seq<Cell>, k: Key, s: seq<Id>, k': Key)
    ensures var cs' := SetCell(cs, k, s); var j := CellAt(cs', k');
      && (j < |cs'| <==> k' == k || CellAt(cs, k') < |cs|)
      && (j < |cs'| ==> cs'[j].objs == if k' == k then s else cs[CellAt(cs, k')].objs)
  {
    if CellAt(cs, k) == |cs| {
      CellAtAppend(cs, Cell(k, s), k');
    } else {
      CellAtKeys(cs, SetCell(cs, k, s), k');
    }
  }

  lemma BucketSetBucketOldLayer(ix: Index, l: int, k: Key, s: seq<Id>, l': int, k': Key)
    requires LayerAt(ix, l) < |ix|
    ensures Bucket(SetBucket(ix, l, k, s), l', k') == if l' == l && k' == k then s else Bucket(ix, l', k')
    ensures HasCell(SetBucket(ix, l, k, s), l', k') == ((l' == l && k' == k) || HasCell(ix, l', k'))
  {
    if l' == l {
      SameLayerSetBucket(ix, l, k, s, k');
    } else {
      OtherLayerSetBucket(ix, l, k, s, l', k');
    }
  }

  /** Setting a cell of an existing layer, seen from that layer. */
  lemma SameLayerSetBucket(ix: Index, l: int, k: Key, s: seq<Id>, k': Key)
    requires LayerAt(ix, l) < |ix|
    ensures Bucket(SetBucket(ix, l, k, s), l, k') == if k' == k then s else Bucket(ix, l, k')
    ensures HasCell(SetBucket(ix, l, k, s), l, k') == (k' == k || HasCell(ix, l, k'))
  {
    var i := LayerAt(ix, l);
    var cs := ix[i].cells;
    var ix' := ix[i := ix[i].(cells := SetCell(cs, k, s))];
    LayerAtKeys(ix, ix', l);
    SetCellLookup(cs, k, s, k');
  }

  /** Setting a cell of an existing layer, seen from another layer. */
  lemma OtherLayerSetBucket(ix: Index, l: int, k: Key, s: seq<Id>, l': int, k': Key)
    requires LayerAt(ix, l) < |ix| && l' != l
    ensures Bucket(SetBucket(ix, l, k, s), l', k') == Bucket(ix, l', k')
    ensures HasCell(SetBucket(ix, l, k, s), l', k') == HasCell(ix, l', k')
  {
    var i := LayerAt(ix, l);
    var ix' := ix[i := ix[i].(cells := SetCell(ix[i].cells, k, s))];
    LayerAtKeys(ix, ix', l');
    var i' := LayerAt(ix, l');
    if i' < |ix| {
      assert ix'[i'] == ix[i'];
    }
  }

  /** Setting `map[l][k]` changes that bucket and no other, and creates only that key. */
  lemma BucketSetBucket(ix: Index, l: int, k: Key, s: seq<Id>, l': int, k': Key)
    ensures Bucket(SetBucket(ix, l, k, s), l', k') == if l' == l && k' == k then s else Bucket(ix, l', k')
    ensures HasCell(SetBucket(ix, l, k, s), l', k') == ((l' == l && k' == k) || HasCell(ix, l', k'))
  {
    if LayerAt(ix, l) == |ix| {
      BucketSetBucketNewLayer(ix, l, k, s, l', k');
    } else {
      BucketSetBucketOldLayer(ix, l, k, s, l', k');
    }
  }

  /** `add_obj` appends to its own bucket, creating it if needed, and changes no other bucket. */
  lemma AddBuckets(ix: Index, l: int, k: Key, id: Id)
    ensures Bucket(Add(ix, l, k, id), l, k) == Bucket(ix, l, k) + [id]
    ensures HasCell(Add(ix, l, k, id), l, k)
    ensures forall l', k' :: (l' != l || k' != k) ==>
      Bucket(Add(ix, l, k, id), l', k') == Bucket(ix, l', k') && (HasCell(Add(ix, l, k, id), l', k') <==> HasCell(ix, l', k'))
  {
    var s := Bucket(ix, l, k) + [id];
    forall l', k' ensures Bucket(SetBucket(ix, l, k, s), l', k') == (if l' == l && k' == k then s else Bucket(ix, l', k'))
      && (HasCell(SetBucket(ix, l, k, s), l', k') == ((l' == l && k' == k) || HasCell(ix, l', k')))
    {
      BucketSetBucket(ix, l, k, s, l', k');
    }
  }

  /**
   * `remove_obj` drops the first occurrence of the object from its own bucket, which then
   * exists even if it did not before, and changes no other bucket.
   */
  lemma RemoveBuckets(ix: Index, l: int, k: Key, id: Id)
    ensures Bucket(Remove(ix, l, k, id), l, k) == RemoveFirst(Bucket(ix, l, k), id)
    ensures HasCell(Remove(ix, l, k, id), l, k)
    ensures forall l', k' :: (l' != l || k' != k) ==>
      Bucket(Remove(ix, l, k, id), l', k') == Bucket(ix, l', k') && (HasCell(Remove(ix, l, k, id), l', k') <==> HasCell(ix, l', k'))
  {
    var s := RemoveFirst(Bucket(ix, l, k), id);
    forall l', k' ensures Bucket(SetBucket(ix, l, k, s), l', k') == (if l' == l && k' == k then s else Bucket(ix, l', k'))
      && (HasCell(SetBucket(ix, l, k, s), l', k') == ((l' == l && k' == k) || HasCell(ix, l', k')))
    {
      BucketSetBucket(ix, l, k, s, l', k');
    }
  }

  /** Every existing bucket, even an empty one, is visited by the iteration. */
  lemma BucketIsEntry(ix: Index, l: int, k: Key)
    requires HasCell(ix, l, k)
    ensures Entry(l, k, Bucket(ix, l, k)) in Entries(ix)
  {
    var ea, eb := EntriesSetBucket(ix, l, k, []);
    assert Entries(ix)[|ea|] == Entry(l, k, Bucket(ix, l, k));
  }

  /** An entry of the iteration is the bucket stored under its own keys. */
  lemma {:induction false} EntryIsBucket(ix: Index, e: Entry)
    requires WellFormed(ix) && e in Entries(ix)
    ensures HasCell(ix, e.layer, e.key) && Bucket(ix, e.layer, e.key) == e.objs
  {
    var n := |ix| - 1;
    var pre := ix[..n];
    assert WellFormed(pre);
    if e in Entries(pre) {
      EntryIsBucket(pre, e);
      var i := LayerAt(pre, e.layer);
      assert LayerAt(ix, e.layer) == i;
    } else {
      var cs := ix[n].cells;
      var j :| 0 <= j < |cs| && CellEntries(ix[n].layer, cs)[j] == e;
      assert LayerAt(ix, e.layer) == n;
      assert CellAt(cs, e.key) == j;
    }
  }

  /** Adding puts exactly one more occurrence `Slot(l, k, id)` in the index. */
  lemma AddOcc(ix: Index, l: int, k: Key, id: Id)
    ensures multiset(Occ(Add(ix, l, k, id))) == multiset(Occ(ix)) + multiset{Slot(l, k, id)}
  {
    var b := Bucket(ix, l, k);
    var a, c := OccSetBucket(ix, l, k, b + [id]);
    SlotsOfAppend(l, k, b, [id]);
    assert SlotsOf(l, k, [id]) == [Slot(l, k, id)];
    assert multiset(Occ(ix)) == multiset(a) + multiset(SlotsOf(l, k, b)) + multiset(c);
    assert multiset(Occ(Add(ix, l, k, id))) == multiset(a) + multiset(SlotsOf(l, k, b)) + multiset{Slot(l, k, id)} + multiset(c);
  }

  lemma SlotsOfRemoveFirst(l: int, k: Key, b: seq<Id>, id: Id)
    requires id in b
    ensures multiset(SlotsOf(l, k, RemoveFirst(b, id))) == multiset(SlotsOf(l, k, b)) - multiset{Slot(l, k, id)}
  {
    var i := IndexOf(b, id);
    assert b == b[..i] + [id] + b[i + 1..];
    SlotsOfAppend(l, k, b[..i] + [id], b[i + 1..]);
    SlotsOfAppend(l, k, b[..i], [id]);
    SlotsOfAppend(l, k, b[..i], b[i + 1..]);
    assert SlotsOf(l, k, [id]) == [Slot(l, k, id)];
  }

  /** Removing takes out exactly one occurrence when there is one, and nothing otherwise. */
  lemma RemoveOcc(ix: Index, l: int, k: Key, id: Id)
    ensures id in Bucket(ix, l, k) ==> multiset(Occ(Remove(ix, l, k, id))) == multiset(Occ(ix)) - multiset{Slot(l, k, id)}
    ensures id !in Bucket(ix, l, k) ==> Occ(Remove(ix, l, k, id)) == Occ(ix)
  {
    var b := Bucket(ix, l, k);
    var a, c := OccSetBucket(ix, l, k, RemoveFirst(b, id));
    if id in b {
      SlotsOfRemoveFirst(l, k, b, id);
      assert multiset(Occ(ix)) == multiset(a) + multiset(SlotsOf(l, k, b)) + multiset(c);
      assert multiset(Occ(Remove(ix, l, k, id))) == multiset(a) + multiset(SlotsOf(l, k, RemoveFirst(b, id))) + multiset(c);
    }
  }
}
