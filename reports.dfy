/**
 * The per-tick collision reports of the resolver (`rigidbody_collisions`, a
 * `defaultdict(list)` keyed by object id) and the notifications sent from them.
 */
module CollisionReports {
  import opened GameObjects
  import opened Lists

  /** The dictionary: its keys in insertion order, and the list under each key. */
  datatype Reports = Reports(order: seq<Id>, peers: map<Id, seq<Id>>)

  /** One `on_rigidbody_collision` call: the object and the peers it is told about. */
  datatype Notification = Notification(id: Id, peers: seq<Id>)

  function NoReports(): Reports {
    Reports([], map[])
  }

  /** The keys are listed once each, in the order they were created. */
  ghost predicate Valid(r: Reports) {
    KeysListed(r.order, r.peers) && Distinct(r.order)
  }

  ghost predicate Distinct(order: seq<Id>) {
    forall i, j :: 0 <= i < j < |order| ==> order[i] != order[j]
  }

  ghost predicate KeysListed(order: seq<Id>, peers: map<Id, seq<Id>>) {
    forall id :: id in order <==> id in peers
  }

  /** `rigidbody_collisions[id].extend(others)`: the key is created on first use. */
  function Extend(r: Reports, id: Id, others: seq<Id>): Reports {
    if id in r.peers then Reports(r.order, r.peers[id := r.peers[id] + others])
    else Reports(r.order + [id], r.peers[id := others])
  }

  /** What each member of a conflict is told: the member list with that member removed once. */
  function OthersOf(members: seq<Id>): (o: seq<seq<Id>>)
    ensures |o| == |members|
    ensures forall i :: 0 <= i < |members| ==> o[i] == RemoveFirst(members, members[i])
  {
    seq(|members|, i requires 0 <= i < |members| => RemoveFirst(members, members[i]))
  }

  /** The reports after the first `n` members of a conflict were each given their list of others. */
  function RecordUpTo(r: Reports, members: seq<Id>, others: seq<seq<Id>>, n: nat): Reports
    requires n <= |members| == |others|
  {
    if n == 0 then r
    else Extend(RecordUpTo(r, members, others, n - 1), members[n - 1], others[n - 1])
  }

  /** The reports after one whole conflict was recorded (termgame.py:291-295). */
  function Record(r: Reports, members: seq<Id>): Reports {
    RecordUpTo(r, members, OthersOf(members), |members|)
  }

  /** Reports only ever grow: earlier keys keep their place and their lists are only appended to. */
  ghost predicate Grows(r: Reports, r': Reports) {
    && r.order <= r'.order
    && (forall id :: id in r.peers ==> id in r'.peers && r.peers[id] <= r'.peers[id])
  }

  lemma ExtendValid(r: Reports, id: Id, others: seq<Id>)
    requires Valid(r)
    ensures Valid(Extend(r, id, others))
  {
    if id !in r.peers {
      var o := r.order + [id];
      forall i, j | 0 <= i < j < |o| ensures o[i] != o[j] {
        if j == |r.order| {
          assert o[i] == r.order[i];
        } else {
          assert o[i] == r.order[i] && o[j] == r.order[j];
        }
      }
    }
  }

  lemma ExtendGrows(r: Reports, id: Id, others: seq<Id>)
    ensures Grows(r, Extend(r, id, others))
    ensures id in Extend(r, id, others).peers
    ensures var p := Extend(r, id, others).peers[id]; |p| >= |others| && p[|p| - |others|..] == others
  {
  }

  /** Every member of a conflict has every other member in its report. */
  ghost predicate AllSee(members: seq<Id>, r: Reports) {
    forall i, j :: 0 <= i < |members| && 0 <= j < |members| && members[i] != members[j] ==>
      members[i] in r.peers && members[j] in r.peers[members[i]]
  }

  /** Reports that have been made are never lost. */
  lemma GrowsKeepsAll(members: seq<Id>, r: Reports, r': Reports)
    requires AllSee(members, r) && Grows(r, r')
    ensures AllSee(members, r')
  {
    forall i, j | 0 <= i < |members| && 0 <= j < |members| && members[i] != members[j]
      ensures members[i] in r'.peers && members[j] in r'.peers[members[i]]
    {
      GrowsKeeps(r, r', members[i], members[j]);
    }
  }

  /** A report that has been made is never lost. */
  lemma GrowsKeeps(r: Reports, r': Reports, id: Id, peer: Id)
    requires Grows(r, r') && id in r.peers && peer in r.peers[id]
    ensures id in r'.peers && peer in r'.peers[id]
  {
    var q :| 0 <= q < |r.peers[id]| && r.peers[id][q] == peer;
    assert r'.peers[id][q] == peer;
  }

  lemma GrowsTransitive(a: Reports, b: Reports, c: Reports)
    requires Grows(a, b) && Grows(b, c)
    ensures Grows(a, c)
  {
  }

  lemma {:induction false} RecordUpToValid(r: Reports, members: seq<Id>, others: seq<seq<Id>>, m: nat)
    requires Valid(r) && m <= |members| == |others|
    ensures Valid(RecordUpTo(r, members, others, m))
  {
    if m > 0 {
      RecordUpToValid(r, members, others, m - 1);
      ExtendValid(RecordUpTo(r, members, others, m - 1), members[m - 1], others[m - 1]);
    }
  }

  lemma {:induction false} RecordUpToGrows(r: Reports, members: seq<Id>, others: seq<seq<Id>>, n: nat, m: nat)
    requires n <= m <= |members| == |others|
    ensures Grows(RecordUpTo(r, members, others, n), RecordUpTo(r, members, others, m))
  {
    if n < m {
      var prev := RecordUpTo(r, members, others, m - 1);
      RecordUpToGrows(r, members, others, n, m - 1);
      ExtendGrows(prev, members[m - 1], others[m - 1]);
      GrowsTransitive(RecordUpTo(r, members, others, n), prev, RecordUpTo(r, members, others, m));
    }
  }

  /**
   * Recording a conflict keeps every earlier report, and afterwards every member's
   * report lists every other member of the conflict.
   */
  lemma RecordPeers(r: Reports, members: seq<Id>)
    requires Valid(r)
    ensures Valid(Record(r, members)) && Grows(r, Record(r, members))
    ensures AllSee(members, Record(r, members))
  {
    var others := OthersOf(members);
    RecordUpToValid(r, members, others, |members|);
    RecordUpToGrows(r, members, others, 0, |members|);
    forall i, j | 0 <= i < |members| && 0 <= j < |members| && members[i] != members[j]
      ensures members[i] in Record(r, members).peers && members[j] in Record(r, members).peers[members[i]]
    {
      RemoveFirstKeepsOthers(members, members[i], members[j]);
      RecordMemberSees(r, members, others, i, members[j]);
    }
  }

  /** Once member `i` has been given its others, its report keeps every one of them. */
  lemma RecordMemberSees(r: Reports, members: seq<Id>, others: seq<seq<Id>>, i: nat, peer: Id)
    requires |members| == |others| && i < |members| && peer in others[i]
    ensures members[i] in RecordUpTo(r, members, others, |members|).peers
    ensures peer in RecordUpTo(r, members, others, |members|).peers[members[i]]
  {
    var before := RecordUpTo(r, members, others, i);
    var after := RecordUpTo(r, members, others, i + 1);
    ExtendGrows(before, members[i], others[i]);
    var p := after.peers[members[i]];
    assert peer in p by {
      var t := |p| - |others[i]|;
      var q :| 0 <= q < |others[i]| && others[i][q] == peer;
      assert p[t + q] == others[i][q];
    }
    RecordUpToGrows(r, members, others, i + 1, |members|);
  }

  /** Records one conflict, member by member, as the loop at termgame.py:291-295 does. */
  method RecordConflict(r: Reports, members: seq<Id>) returns (r': Reports)
    ensures r' == Record(r, members)
  {
    r' := r;
    ghost var all := OthersOf(members);
    for n := 0 to |members|
      invariant r' == RecordUpTo(r, members, all, n)
    {
      var others := RemoveFirst(members, members[n]);
      r' := Extend(r', members[n], others);
    }
  }

  /** The notifications for the keys listed in `order`, skipping objects no longer active. */
  function NotesOf(order: seq<Id>, peers: map<Id, seq<Id>>, active: seq<Id>): seq<Notification>
    requires forall id :: id in order ==> id in peers
  {
    if order == [] then []
    else
      var id := order[|order| - 1];
      NotesOf(order[..|order| - 1], peers, active) + (if id in active then [Notification(id, peers[id])] else [])
  }

  /** Exactly the still-active objects with a report are notified, each with its whole report. */
  lemma {:induction false} NotesOfExact(order: seq<Id>, peers: map<Id, seq<Id>>, active: seq<Id>)
    requires forall id :: id in order ==> id in peers
    ensures forall n :: n in NotesOf(order, peers, active) ==> n.id in order && n.id in active && n.peers == peers[n.id]
    ensures forall id :: id in order && id in active ==> Notification(id, peers[id]) in NotesOf(order, peers, active)
    ensures |NotesOf(order, peers, active)| <= |order|
  {
    if order != [] {
      var pre := order[..|order| - 1];
      assert order == pre + [order[|order| - 1]];
      NotesOfExact(pre, peers, active);
    }
  }

  /** Each object is notified at most once when the keys are listed once each, as in valid reports. */
  lemma {:induction false} NotesOfDistinct(order: seq<Id>, peers: map<Id, seq<Id>>, active: seq<Id>)
    requires forall id :: id in order ==> id in peers
    requires Distinct(order)
    ensures var notes := NotesOf(order, peers, active);
      forall i, j :: 0 <= i < j < |notes| ==> notes[i].id != notes[j].id
  {
    if order != [] {
      var pre := order[..|order| - 1];
      var id := order[|order| - 1];
      assert Distinct(pre) by {
        forall i, j | 0 <= i < j < |pre| ensures pre[i] != pre[j] {
          assert pre[i] == order[i] && pre[j] == order[j];
        }
      }
      assert id !in pre by {
        forall i | 0 <= i < |pre| ensures pre[i] != id {
          assert pre[i] == order[i];
        }
      }
      NotesOfDistinct(pre, peers, active);
      NotesOfExact(pre, peers, active);
      var a := NotesOf(pre, peers, active);
      if id in active {
        var notes := a + [Notification(id, peers[id])];
        forall i, j | 0 <= i < j < |notes| ensures notes[i].id != notes[j].id {
          if j == |a| {
            assert notes[i] == a[i] && a[i] in a;
          } else {
            assert notes[i] == a[i] && notes[j] == a[j];
          }
        }
      }
    }
  }

  /** Notifications follow the order of the report keys: notifying two key lists in turn is notifying their concatenation. */
  lemma {:induction false} NotesOfAppend(a: seq<Id>, b: seq<Id>, peers: map<Id, seq<Id>>, active: seq<Id>)
    requires forall id :: id in a + b ==> id in peers
    ensures NotesOf(a + b, peers, active) == NotesOf(a, peers, active) + NotesOf(b, peers, active)
    decreases |b|
  {
    if b == [] {
      assert a + b == a;
    } else {
      var b' := b[..|b| - 1];
      assert (a + b)[..|a + b| - 1] == a + b';
      assert (a + b)[|a + b| - 1] == b[|b| - 1];
      NotesOfAppend(a, b', peers, active);
    }
  }

  /** The notification loop (termgame.py:315-318), over the report keys in insertion order. */
  method Notify(r: Reports, active: seq<Id>) returns (notes: seq<Notification>)
    requires Valid(r)
    ensures notes == NotesOf(r.order, r.peers, active)
  {
    notes := [];
    for n := 0 to |r.order|
      invariant notes == NotesOf(r.order[..n], r.peers, active)
    {
      assert r.order[..n + 1][..n] == r.order[..n];
      var id := r.order[n];
      if id in active {
        notes := notes + [Notification(id, r.peers[id])];
      }
    }
    assert r.order[..|r.order|] == r.order;
  }
}
