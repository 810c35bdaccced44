/** The virtual queue: the `queue_entries` table, its three queries and its four
    writes. An entry moves from waiting to completed and may be marked
    notified; positions are handed out as "waiting count + 1" on join and
    renumbered 1..N in join order only by `updateQueuePositions`.
    Timestamps are whole seconds. */
module Queue {
  import opened Wrappers
  import opened Seqs
  import Locations

  datatype Status = Waiting | Completed

  datatype QueueEntry = QueueEntry(
    id: int,
    locationId: int,
    userId: string,
    queuePosition: int,
    estimatedWaitTime: int,
    joinedAt: int,
    notifiedAt: Option<int>,
    completedAt: Option<int>,
    status: Status)

  /** Row ids follow insertion order: AUTOINCREMENT and no deletes. */
  ghost predicate RowIds(entries: seq<QueueEntry>) {
    forall i :: 0 <= i < |entries| ==> entries[i].id == i + 1
  }

  /** `locationId = ? AND status = 'waiting'` */
  predicate WaitingAt(e: QueueEntry, locationId: int) {
    e.locationId == locationId && e.status == Waiting
  }

  function IsWaitingAt(locationId: int): QueueEntry -> bool {
    (e: QueueEntry) => WaitingAt(e, locationId)
  }

  /** `getQueueLength(locationId)`: `SELECT COUNT(*)` of the waiting entries there. */
  function GetQueueLength(entries: seq<QueueEntry>, locationId: int): nat {
    if entries == [] then 0
    else
      GetQueueLength(entries[..|entries| - 1], locationId)
      + (if WaitingAt(entries[|entries| - 1], locationId) then 1 else 0)
  }

  /** The count is the number of waiting entries the renumbering query selects. */
  lemma {:induction false} LengthIsFilterLength(entries: seq<QueueEntry>, locationId: int)
    ensures GetQueueLength(entries, locationId) == |Filter(entries, IsWaitingAt(locationId))|
  {
    if entries != [] {
      var init := entries[..|entries| - 1];
      var last := entries[|entries| - 1];
      assert entries == init + [last];
      LengthIsFilterLength(init, locationId);
      FilterAppend(init, last, IsWaitingAt(locationId));
    }
  }

  /** The entry `joinQueue` inserts: the next id, position = waiting count + 1,
      status 'waiting' and no notification or completion time. */
  function NewEntry(entries: seq<QueueEntry>, locationId: int, userId: string, estimatedWaitTime: int, now: int)
    : (r: QueueEntry)
    ensures r.id == |entries| + 1 && r.locationId == locationId && r.userId == userId
    ensures r.queuePosition == GetQueueLength(entries, locationId) + 1
    ensures r.estimatedWaitTime == estimatedWaitTime && r.joinedAt == now
    ensures r.status == Waiting && r.notifiedAt.None? && r.completedAt.None?
  {
    QueueEntry(|entries| + 1, locationId, userId, GetQueueLength(entries, locationId) + 1,
      estimatedWaitTime, now, None, None, Waiting)
  }

  /** A join raises the queue length at its location by one and leaves every
      other location's length as it was. */
  lemma JoinRaisesLength(entries: seq<QueueEntry>, locationId: int, userId: string, estimatedWaitTime: int, now: int, other: int)
    ensures var after := entries + [NewEntry(entries, locationId, userId, estimatedWaitTime, now)];
      && GetQueueLength(after, locationId) == GetQueueLength(entries, locationId) + 1
      && (other != locationId ==> GetQueueLength(after, other) == GetQueueLength(entries, other))
  {
    var after := entries + [NewEntry(entries, locationId, userId, estimatedWaitTime, now)];
    assert after[..|after| - 1] == entries;
  }

  /** `markAsNotified(entryId)`: the entry with that id gets `notifiedAt = now`. */
  function MarkedNotified(entries: seq<QueueEntry>, entryId: int, now: int): (r: seq<QueueEntry>)
    ensures |r| == |entries|
  {
    seq(|entries|, i requires 0 <= i < |entries| =>
      if entries[i].id == entryId then entries[i].(notifiedAt := Some(now)) else entries[i])
  }

  /** `completeEntry(entryId)`: the entry with that id becomes 'completed' at `now`. */
  function MarkedCompleted(entries: seq<QueueEntry>, entryId: int, now: int): (r: seq<QueueEntry>)
    ensures |r| == |entries|
  {
    seq(|entries|, i requires 0 <= i < |entries| =>
      if entries[i].id == entryId then entries[i].(status := Completed, completedAt := Some(now)) else entries[i])
  }

  /** Marking twice is marking once with the later time; no other entry and no
      other field changes. */
  lemma NotifiedOverwrites(entries: seq<QueueEntry>, entryId: int, first: int, second: int)
    ensures MarkedNotified(MarkedNotified(entries, entryId, first), entryId, second) == MarkedNotified(entries, entryId, second)
    ensures forall i :: 0 <= i < |entries| ==>
      var e := MarkedNotified(entries, entryId, second)[i];
      && e.status == entries[i].status && e.queuePosition == entries[i].queuePosition
      && e.completedAt == entries[i].completedAt
      && (entries[i].id != entryId ==> e == entries[i])
  {
  }

  /** An unknown id changes nothing, neither for completion nor notification. */
  lemma UnknownIdIsNoOp(entries: seq<QueueEntry>, entryId: int, now: int)
    requires forall i :: 0 <= i < |entries| ==> entries[i].id != entryId
    ensures MarkedCompleted(entries, entryId, now) == entries
    ensures MarkedNotified(entries, entryId, now) == entries
  {
  }

  /** Completing the waiting entry with a given id lowers its location's
      queue length by one. */
  lemma {:induction false} CompleteLowersLength(entries: seq<QueueEntry>, k: int, now: int)
    requires RowIds(entries) && 0 <= k < |entries| && entries[k].status == Waiting
    ensures GetQueueLength(MarkedCompleted(entries, entries[k].id, now), entries[k].locationId)
      == GetQueueLength(entries, entries[k].locationId) - 1
  {
    var id := entries[k].id;
    var loc := entries[k].locationId;
    var init := entries[..|entries| - 1];
    var after := MarkedCompleted(entries, id, now);
    assert RowIds(init);
    assert after[..|after| - 1] == MarkedCompleted(init, id, now);
    if k == |entries| - 1 {
      UnknownIdIsNoOp(init, id, now);
    } else {
      CompleteLowersLength(init, k, now);
    }
  }

  /** No operation moves an entry from 'completed' back to 'waiting'. */
  lemma CompletedStaysCompleted(entries: seq<QueueEntry>, i: int, entryId: int, now: int, locationId: int)
    requires 0 <= i < |entries| && entries[i].status == Completed
    ensures MarkedCompleted(entries, entryId, now)[i].status == Completed
    ensures MarkedNotified(entries, entryId, now)[i].status == Completed
    ensures Renumbered(entries, locationId)[i].status == Completed
  {
  }

  /** `ORDER BY joinedAt ASC`; entries that joined in the same second keep
      insertion order. */
  predicate JoinLe(a: QueueEntry, b: QueueEntry) {
    a.joinedAt < b.joinedAt || (a.joinedAt == b.joinedAt && a.id <= b.id)
  }

  lemma JoinOrderTotal()
    ensures TotalPreorder(JoinLe)
  {
  }

  /** The waiting entries at a location, earliest join first. */
  function WaitingInJoinOrder(entries: seq<QueueEntry>, locationId: int): (r: seq<QueueEntry>)
    ensures multiset(r) == multiset(Filter(entries, IsWaitingAt(locationId)))
    ensures |r| == |Filter(entries, IsWaitingAt(locationId))|
    ensures forall x :: x in r <==> x in entries && WaitingAt(x, locationId)
    ensures Sorted(r, JoinLe)
  {
    JoinOrderTotal();
    var selected := Filter(entries, IsWaitingAt(locationId));
    var sorted := Sort(selected, JoinLe);
    assert forall x :: x in sorted <==> x in selected by {
      forall x ensures x in sorted <==> x in selected {
        assert x in sorted <==> x in multiset(sorted);
      }
    }
    sorted
  }

  /** The ids the renumbering query returns, in join order. */
  function JoinOrder(entries: seq<QueueEntry>, locationId: int): (r: seq<int>)
    ensures |r| == |WaitingInJoinOrder(entries, locationId)|
    ensures forall k :: 0 <= k < |r| ==> r[k] == WaitingInJoinOrder(entries, locationId)[k].id
    ensures forall x :: x in entries && WaitingAt(x, locationId) ==> x.id in r
  {
    var w := WaitingInJoinOrder(entries, locationId);
    var r := seq(|w|, k requires 0 <= k < |w| => w[k].id);
    assert forall x :: x in entries && WaitingAt(x, locationId) ==> x.id in r by {
      forall x | x in entries && WaitingAt(x, locationId) ensures x.id in r {
        var k :| 0 <= k < |w| && w[k] == x;
        assert r[k] == x.id;
      }
    }
    r
  }

  /** Row ids make the rows distinct. */
  lemma RowIdsNoDup(entries: seq<QueueEntry>)
    requires RowIds(entries)
    ensures NoDup(entries)
  {
    forall i, j | 0 <= i < j < |entries| ensures entries[i] != entries[j] {
      assert entries[i].id == i + 1 && entries[j].id == j + 1;
    }
  }

  /** Each waiting entry in join order is the row its id names. */
  lemma WaitingAreRows(entries: seq<QueueEntry>, locationId: int)
    requires RowIds(entries)
    ensures var w := WaitingInJoinOrder(entries, locationId);
      forall k :: 0 <= k < |w| ==>
        1 <= w[k].id <= |entries| && entries[w[k].id - 1] == w[k] && WaitingAt(w[k], locationId)
  {
    var w := WaitingInJoinOrder(entries, locationId);
    forall k | 0 <= k < |w|
      ensures 1 <= w[k].id <= |entries| && entries[w[k].id - 1] == w[k] && WaitingAt(w[k], locationId)
    {
      assert w[k] in w;
      var i :| 0 <= i < |entries| && entries[i] == w[k];
    }
  }

  /** The waiting entries in join order are distinct. */
  lemma WaitingNoDup(entries: seq<QueueEntry>, locationId: int)
    requires RowIds(entries)
    ensures NoDup(WaitingInJoinOrder(entries, locationId))
  {
    RowIdsNoDup(entries);
    FilterNoDup(entries, IsWaitingAt(locationId));
    NoDupPermutation(Filter(entries, IsWaitingAt(locationId)), WaitingInJoinOrder(entries, locationId));
  }

  /** The renumbering ids are distinct. */
  lemma JoinOrderNoDup(entries: seq<QueueEntry>, locationId: int)
    requires RowIds(entries)
    ensures NoDup(JoinOrder(entries, locationId))
  {
    var order := JoinOrder(entries, locationId);
    var w := WaitingInJoinOrder(entries, locationId);
    WaitingAreRows(entries, locationId);
    WaitingNoDup(entries, locationId);
    forall a, b | 0 <= a < b < |order| ensures order[a] != order[b] {
      assert w[a] != w[b];
    }
  }

  /** Each renumbering id names a waiting row at index id - 1. */
  lemma JoinOrderNamesRows(entries: seq<QueueEntry>, locationId: int)
    requires RowIds(entries)
    ensures var order := JoinOrder(entries, locationId);
      forall k :: 0 <= k < |order| ==> 1 <= order[k] <= |entries| && WaitingAt(entries[order[k] - 1], locationId)
  {
    var order := JoinOrder(entries, locationId);
    var w := WaitingInJoinOrder(entries, locationId);
    WaitingAreRows(entries, locationId);
    forall k | 0 <= k < |order|
      ensures 1 <= order[k] <= |entries| && WaitingAt(entries[order[k] - 1], locationId)
    {
      assert order[k] == w[k].id && entries[w[k].id - 1] == w[k];
    }
  }

  /** A row's id is a renumbering id exactly when the row is waiting there. */
  lemma JoinOrderMembers(entries: seq<QueueEntry>, locationId: int, i: int)
    requires RowIds(entries) && 0 <= i < |entries|
    ensures entries[i].id in JoinOrder(entries, locationId) <==> WaitingAt(entries[i], locationId)
  {
    var order := JoinOrder(entries, locationId);
    if entries[i].id in order {
      var k :| 0 <= k < |order| && order[k] == entries[i].id;
      JoinOrderNamesRows(entries, locationId);
    } else {
      assert entries[i] in entries;
    }
  }

  /** Under row ids, the renumbering ids are distinct, each names a waiting row
      at index id - 1, they are exactly the waiting entries' ids, and there are
      as many as the queue length. */
  lemma JoinOrderFacts(entries: seq<QueueEntry>, locationId: int)
    requires RowIds(entries)
    ensures var order := JoinOrder(entries, locationId);
      && NoDup(order)
      && (forall k :: 0 <= k < |order| ==>
            1 <= order[k] <= |entries| && WaitingAt(entries[order[k] - 1], locationId))
      && (forall i :: 0 <= i < |entries| ==> (entries[i].id in order <==> WaitingAt(entries[i], locationId)))
      && |order| == GetQueueLength(entries, locationId)
  {
    JoinOrderNoDup(entries, locationId);
    JoinOrderNamesRows(entries, locationId);
    forall i | 0 <= i < |entries|
      ensures entries[i].id in JoinOrder(entries, locationId) <==> WaitingAt(entries[i], locationId)
    {
      JoinOrderMembers(entries, locationId, i);
    }
    LengthIsFilterLength(entries, locationId);
  }

  /** A waiting entry's rank in join order, from 1. */
  function Rank(order: seq<int>, id: int): (r: nat)
    requires id in order
    ensures 1 <= r <= |order| && order[r - 1] == id
  {
    IndexOf(order, id) + 1
  }

  /** In a sequence without repeats, the element at index p - 1 has rank p. */
  lemma RankOfIndex(order: seq<int>, p: int)
    requires NoDup(order) && 1 <= p <= |order|
    ensures Rank(order, order[p - 1]) == p
  {
    var q := IndexOf(order, order[p - 1]);
    assert order[q] == order[p - 1];
  }

  /** What `updateQueuePositions(locationId)` leaves behind: every waiting entry
      at the location holds its rank in join order; every other entry is as
      it was. */
  function Renumbered(entries: seq<QueueEntry>, locationId: int): (r: seq<QueueEntry>)
    ensures |r| == |entries|
    ensures forall i :: 0 <= i < |entries| && !WaitingAt(entries[i], locationId) ==> r[i] == entries[i]
    ensures forall i :: 0 <= i < |entries| && WaitingAt(entries[i], locationId) ==>
      r[i] == entries[i].(queuePosition := r[i].queuePosition)
  {
    var order := JoinOrder(entries, locationId);
    seq(|entries|, i requires 0 <= i < |entries| =>
      if WaitingAt(entries[i], locationId) then
        assert entries[i] in entries;
        entries[i].(queuePosition := Rank(order, entries[i].id))
      else entries[i])
  }

  /** The waiting entries at a location hold distinct positions in 1..N, where N
      is the queue length there. */
  ghost predicate Contiguous(entries: seq<QueueEntry>, locationId: int) {
    && (forall i :: 0 <= i < |entries| && WaitingAt(entries[i], locationId) ==>
          1 <= entries[i].queuePosition <= GetQueueLength(entries, locationId))
    && (forall i, j :: 0 <= i < j < |entries| && WaitingAt(entries[i], locationId) && WaitingAt(entries[j], locationId) ==>
          entries[i].queuePosition != entries[j].queuePosition)
  }

  /** Some waiting entry at the location holds position `p`. */
  ghost predicate PositionHeld(entries: seq<QueueEntry>, locationId: int, p: int) {
    exists i :: 0 <= i < |entries| && WaitingAt(entries[i], locationId) && entries[i].queuePosition == p
  }

  /** A renumbered waiting entry holds its rank in join order. */
  lemma RenumberedPosition(entries: seq<QueueEntry>, locationId: int, i: int)
    requires RowIds(entries) && 0 <= i < |entries| && WaitingAt(entries[i], locationId)
    ensures entries[i].id in JoinOrder(entries, locationId)
    ensures Renumbered(entries, locationId)[i].queuePosition == Rank(JoinOrder(entries, locationId), i + 1)
  {
    assert entries[i] in entries;
  }

  /** The number of renumbering ids is the queue length, before and after. */
  lemma JoinOrderLength(entries: seq<QueueEntry>, locationId: int)
    ensures |JoinOrder(entries, locationId)| == GetQueueLength(entries, locationId)
    ensures GetQueueLength(Renumbered(entries, locationId), locationId) == GetQueueLength(entries, locationId)
  {
    LengthIsFilterLength(entries, locationId);
    SameStatusSameLength(entries, Renumbered(entries, locationId), locationId);
  }

  /** After renumbering, positions at the location are distinct and in 1..N. */
  lemma RenumberedIsContiguous(entries: seq<QueueEntry>, locationId: int)
    requires RowIds(entries)
    ensures Contiguous(Renumbered(entries, locationId), locationId)
  {
    var r := Renumbered(entries, locationId);
    JoinOrderLength(entries, locationId);
    forall i | 0 <= i < |r| && WaitingAt(r[i], locationId)
      ensures 1 <= r[i].queuePosition <= GetQueueLength(r, locationId)
    {
      RenumberedPosition(entries, locationId, i);
    }
    forall i, j | 0 <= i < j < |r| && WaitingAt(r[i], locationId) && WaitingAt(r[j], locationId)
      ensures r[i].queuePosition != r[j].queuePosition
    {
      RenumberedPosition(entries, locationId, i);
      RenumberedPosition(entries, locationId, j);
    }
  }

  /** After renumbering, every position 1..N is held. */
  lemma RenumberedIsOnto(entries: seq<QueueEntry>, locationId: int)
    requires RowIds(entries)
    ensures var r := Renumbered(entries, locationId);
      forall p :: 1 <= p <= GetQueueLength(r, locationId) ==> PositionHeld(r, locationId, p)
  {
    var r := Renumbered(entries, locationId);
    var order := JoinOrder(entries, locationId);
    JoinOrderLength(entries, locationId);
    JoinOrderNoDup(entries, locationId);
    JoinOrderNamesRows(entries, locationId);
    forall p | 1 <= p <= GetQueueLength(r, locationId) ensures PositionHeld(r, locationId, p) {
      var i := order[p - 1] - 1;
      RenumberedPosition(entries, locationId, i);
      RankOfIndex(order, p);
      assert WaitingAt(r[i], locationId) && r[i].queuePosition == p;
    }
  }

  /** After renumbering, an entry that joined earlier holds a smaller position. */
  lemma RenumberedFollowsJoinOrder(entries: seq<QueueEntry>, locationId: int, i: int, j: int)
    requires RowIds(entries) && 0 <= i < |entries| && 0 <= j < |entries|
    requires WaitingAt(entries[i], locationId) && WaitingAt(entries[j], locationId)
    requires entries[i].joinedAt < entries[j].joinedAt
    ensures Renumbered(entries, locationId)[i].queuePosition < Renumbered(entries, locationId)[j].queuePosition
  {
    var order := JoinOrder(entries, locationId);
    var w := WaitingInJoinOrder(entries, locationId);
    WaitingAreRows(entries, locationId);
    RenumberedPosition(entries, locationId, i);
    RenumberedPosition(entries, locationId, j);
    var a := IndexOf(order, i + 1);
    var b := IndexOf(order, j + 1);
    assert w[a] == entries[i] && w[b] == entries[j];
    JoinOrderTotal();
    SortedPrecedes(w, JoinLe, a, b);
  }

  /** The table after the first `k` updates of the renumbering loop: the
      entries whose ids come first in `order` hold their rank. */
  ghost function PartlyRenumbered(entries: seq<QueueEntry>, order: seq<int>, k: int): (r: seq<QueueEntry>)
    requires 0 <= k <= |order|
    ensures |r| == |entries|
  {
    seq(|entries|, i requires 0 <= i < |entries| =>
      if entries[i].id in order[..k] then entries[i].(queuePosition := Rank(order, entries[i].id)) else entries[i])
  }

  /** One loop step writes rank k + 1 to the row that `order[k]` names. */
  lemma RenumberStep(entries: seq<QueueEntry>, order: seq<int>, k: int)
    requires RowIds(entries) && NoDup(order) && 0 <= k < |order| && 1 <= order[k] <= |entries|
    ensures var before := PartlyRenumbered(entries, order, k);
      PartlyRenumbered(entries, order, k + 1)
        == before[order[k] - 1 := before[order[k] - 1].(queuePosition := k + 1)]
  {
    var before := PartlyRenumbered(entries, order, k);
    var after := PartlyRenumbered(entries, order, k + 1);
    assert order[..k + 1] == order[..k] + [order[k]];
    assert order[k] !in order[..k];
    RankOfIndex(order, k + 1);
    forall i | 0 <= i < |entries|
      ensures after[i] == before[order[k] - 1 := before[order[k] - 1].(queuePosition := k + 1)][i]
    {
      assert entries[i].id == i + 1;
    }
  }

  /** After every step the table is the renumbered one. */
  lemma RenumberDone(entries: seq<QueueEntry>, locationId: int)
    requires RowIds(entries)
    ensures var order := JoinOrder(entries, locationId);
      PartlyRenumbered(entries, order, |order|) == Renumbered(entries, locationId)
  {
    var order := JoinOrder(entries, locationId);
    JoinOrderFacts(entries, locationId);
    assert order[..|order|] == order;
    forall i | 0 <= i < |entries|
      ensures PartlyRenumbered(entries, order, |order|)[i] == Renumbered(entries, locationId)[i]
    {
      assert entries[i] in entries;
    }
  }

  /** Changing positions only keeps every queue length. */
  lemma {:induction false} SameStatusSameLength(a: seq<QueueEntry>, b: seq<QueueEntry>, locationId: int)
    requires |a| == |b|
    requires forall i :: 0 <= i < |a| ==> a[i].locationId == b[i].locationId && a[i].status == b[i].status
    ensures GetQueueLength(a, locationId) == GetQueueLength(b, locationId)
  {
    if a != [] {
      SameStatusSameLength(a[..|a| - 1], b[..|b| - 1], locationId);
    }
  }

  /** A join keeps contiguous positions contiguous: the joiner takes N + 1. */
  lemma JoinKeepsContiguous(entries: seq<QueueEntry>, locationId: int, userId: string, estimatedWaitTime: int, now: int)
    requires Contiguous(entries, locationId)
    ensures Contiguous(entries + [NewEntry(entries, locationId, userId, estimatedWaitTime, now)], locationId)
  {
    JoinRaisesLength(entries, locationId, userId, estimatedWaitTime, now, locationId);
  }

  /** Completing an entry without renumbering and then joining hands out a
      position that a waiting entry already holds. */
  lemma CompleteThenJoinRepeatsPosition()
    ensures var e1 := [NewEntry([], 1, "a", 15, 0)];
      var e2 := e1 + [NewEntry(e1, 1, "b", 15, 0)];
      var e3 := MarkedCompleted(e2, 1, 60);
      var e4 := e3 + [NewEntry(e3, 1, "c", 15, 60)];
      && WaitingAt(e4[1], 1) && WaitingAt(e4[2], 1)
      && e4[1].queuePosition == 2 && e4[2].queuePosition == 2
  {
    var e1 := [NewEntry([], 1, "a", 15, 0)];
    var e2 := e1 + [NewEntry(e1, 1, "b", 15, 0)];
    var e3 := MarkedCompleted(e2, 1, 60);
    assert e2[..1] == e1 && e1[..0] == [];
    assert e3[..1][..0] == [] && GetQueueLength(e3[..1], 1) == 0;
  }

  /** One row of `getUserQueues`: the entry joined with its location. */
  datatype UserQueueRow = UserQueueRow(entry: QueueEntry, locationName: string,
    state: Option<string>, city: Option<string>)

  predicate OwnWaiting(e: QueueEntry, userId: string, locations: seq<Locations.Location>) {
    e.userId == userId && e.status == Waiting && Locations.FindById(locations, e.locationId).Some?
  }

  function IsOwnWaiting(userId: string, locations: seq<Locations.Location>): QueueEntry -> bool {
    (e: QueueEntry) => OwnWaiting(e, userId, locations)
  }

  /** `ORDER BY joinedAt DESC`; same-second joins come latest insert first. */
  predicate LatestFirst(a: QueueEntry, b: QueueEntry) {
    a.joinedAt > b.joinedAt || (a.joinedAt == b.joinedAt && a.id >= b.id)
  }

  lemma LatestFirstTotal()
    ensures TotalPreorder(LatestFirst)
  {
  }

  function UserEntries(entries: seq<QueueEntry>, locations: seq<Locations.Location>, userId: string): (r: seq<QueueEntry>)
    ensures forall x :: x in r <==> x in entries && OwnWaiting(x, userId, locations)
    ensures forall x :: multiset(r)[x] == if OwnWaiting(x, userId, locations) then multiset(entries)[x] else 0
    ensures Sorted(r, LatestFirst)
  {
    LatestFirstTotal();
    FilterCount(entries, IsOwnWaiting(userId, locations));
    var selected := Filter(entries, IsOwnWaiting(userId, locations));
    var sorted := Sort(selected, LatestFirst);
    assert forall x :: x in sorted <==> x in selected by {
      forall x ensures x in sorted <==> x in selected {
        assert x in sorted <==> x in multiset(sorted);
      }
    }
    sorted
  }

  /** `getUserQueues(userId)`: exactly the user's waiting entries (at a known
      location), latest join first, each with its location's name, state and city. */
  function GetUserQueues(entries: seq<QueueEntry>, locations: seq<Locations.Location>, userId: string)
    : (r: seq<UserQueueRow>)
    ensures forall k :: 0 <= k < |r| ==>
      && r[k].entry in entries && r[k].entry.userId == userId && r[k].entry.status == Waiting
      && JoinedWithLocation(r[k], locations)
    ensures forall x :: x in entries && OwnWaiting(x, userId, locations) ==> exists k :: 0 <= k < |r| && r[k].entry == x
    ensures forall x ::
      multiset(Map(r, UserRowEntry))[x] == if OwnWaiting(x, userId, locations) then multiset(entries)[x] else 0
    ensures forall k, m :: 0 <= k < m < |r| ==> r[k].entry.joinedAt >= r[m].entry.joinedAt
  {
    UserQueuesFacts(entries, locations, userId);
    JoinedRows(UserEntries(entries, locations, userId), locations)
  }

  /** The contract of `GetUserQueues`, proved on its definition. */
  lemma UserQueuesFacts(entries: seq<QueueEntry>, locations: seq<Locations.Location>, userId: string)
    ensures var r := JoinedRows(UserEntries(entries, locations, userId), locations);
      && (forall k :: 0 <= k < |r| ==>
        && r[k].entry in entries && r[k].entry.userId == userId && r[k].entry.status == Waiting
        && JoinedWithLocation(r[k], locations))
      && (forall x :: x in entries && OwnWaiting(x, userId, locations) ==> exists k :: 0 <= k < |r| && r[k].entry == x)
      && (forall x ::
        multiset(Map(r, UserRowEntry))[x] == if OwnWaiting(x, userId, locations) then multiset(entries)[x] else 0)
      && (forall k, m :: 0 <= k < m < |r| ==> r[k].entry.joinedAt >= r[m].entry.joinedAt)
  {
    var own := UserEntries(entries, locations, userId);
    var r := JoinedRows(own, locations);
    JoinedRowsEntries(own, locations);
    JoinedRowsOrder(own, locations);
    forall k | 0 <= k < |r|
      ensures r[k].entry in entries && r[k].entry.userId == userId && r[k].entry.status == Waiting
    {
      assert r[k].entry == own[k] && own[k] in own;
    }
  }

  /** Each entry, at a known location, joined with that location, in order. */
  function JoinedRows(own: seq<QueueEntry>, locations: seq<Locations.Location>): (r: seq<UserQueueRow>)
    requires forall e :: e in own ==> Locations.FindById(locations, e.locationId).Some?
    ensures |r| == |own|
    ensures forall k :: 0 <= k < |r| ==> r[k].entry == own[k] && JoinedWithLocation(r[k], locations)
  {
    seq(|own|, k requires 0 <= k < |own| =>
      assert own[k] in own;
      UserRow(own[k], locations))
  }

  /** The joined rows carry exactly the given entries, in order. */
  lemma JoinedRowsEntries(own: seq<QueueEntry>, locations: seq<Locations.Location>)
    requires forall e :: e in own ==> Locations.FindById(locations, e.locationId).Some?
    ensures Map(JoinedRows(own, locations), UserRowEntry) == own
    ensures forall x :: x in own ==> exists k :: 0 <= k < |JoinedRows(own, locations)| && JoinedRows(own, locations)[k].entry == x
  {
    var r := JoinedRows(own, locations);
    forall x | x in own ensures exists k :: 0 <= k < |r| && r[k].entry == x {
      var k :| 0 <= k < |own| && own[k] == x;
      assert r[k].entry == x;
    }
  }

  /** Joining keeps a latest-first order. */
  lemma JoinedRowsOrder(own: seq<QueueEntry>, locations: seq<Locations.Location>)
    requires forall e :: e in own ==> Locations.FindById(locations, e.locationId).Some?
    requires Sorted(own, LatestFirst)
    ensures var r := JoinedRows(own, locations);
      forall k, m :: 0 <= k < m < |r| ==> r[k].entry.joinedAt >= r[m].entry.joinedAt
  {
    var r := JoinedRows(own, locations);
    forall k, m | 0 <= k < m < |r| ensures r[k].entry.joinedAt >= r[m].entry.joinedAt {
      assert LatestFirst(own[k], own[m]);
    }
  }

  function UserRowEntry(row: UserQueueRow): QueueEntry {
    row.entry
  }

  /** The row's location exists and the row carries its name, state and city. */
  predicate JoinedWithLocation(row: UserQueueRow, locations: seq<Locations.Location>) {
    && Locations.FindById(locations, row.entry.locationId).Some?
    && var l := Locations.FindById(locations, row.entry.locationId).value;
      row.locationName == l.name && row.state == l.state && row.city == l.city
  }

  /** An entry joined with its location. */
  function UserRow(e: QueueEntry, locations: seq<Locations.Location>): (r: UserQueueRow)
    requires Locations.FindById(locations, e.locationId).Some?
    ensures r.entry == e && JoinedWithLocation(r, locations)
  {
    var l := Locations.FindById(locations, e.locationId).value;
    UserQueueRow(e, l.name, l.state, l.city)
  }

  /** One row of `getEntriesNeedingNotification`. */
  datatype NotificationRow = NotificationRow(entry: QueueEntry, locationName: string)

  /** `datetime(joinedAt, '+' || (estimatedWaitTime - minutesBefore) || ' minutes') <= datetime('now')`.
      A negative offset renders as the modifier '+-n minutes', which SQLite's
      date functions do not accept: `datetime` yields NULL, the comparison is
      NULL and the row is not selected. */
  predicate NotifyDue(e: QueueEntry, minutesBefore: int, now: int) {
    e.estimatedWaitTime >= minutesBefore && e.joinedAt + (e.estimatedWaitTime - minutesBefore) * 60 <= now
  }

  predicate NeedsNotification(e: QueueEntry, locations: seq<Locations.Location>, minutesBefore: int, now: int) {
    e.status == Waiting && e.notifiedAt.None? && NotifyDue(e, minutesBefore, now)
    && Locations.FindById(locations, e.locationId).Some?
  }

  const DefaultMinutesBefore := 5

  function IsDue(locations: seq<Locations.Location>, minutesBefore: int, now: int): QueueEntry -> bool {
    (e: QueueEntry) => NeedsNotification(e, locations, minutesBefore, now)
  }

  /** `getEntriesNeedingNotification(minutesBefore)`: waiting, never notified
      entries whose estimate less `minutesBefore` has elapsed, in table order. */
  function GetEntriesNeedingNotification(entries: seq<QueueEntry>, locations: seq<Locations.Location>,
    minutesBefore: int, now: int): (r: seq<NotificationRow>)
    ensures forall k :: 0 <= k < |r| ==>
      && r[k].entry in entries && NeedsNotification(r[k].entry, locations, minutesBefore, now)
      && r[k].locationName == Locations.FindById(locations, r[k].entry.locationId).value.name
    ensures forall x :: x in entries && NeedsNotification(x, locations, minutesBefore, now) ==>
      exists k :: 0 <= k < |r| && r[k].entry == x
    ensures forall x ::
      multiset(Map(r, DueRowEntry))[x] == if NeedsNotification(x, locations, minutesBefore, now) then multiset(entries)[x] else 0
  {
    FilterCount(entries, IsDue(locations, minutesBefore, now));
    var due := Filter(entries, IsDue(locations, minutesBefore, now));
    var r := seq(|due|, k requires 0 <= k < |due| =>
      assert due[k] in due;
      NotificationRow(due[k], Locations.FindById(locations, due[k].locationId).value.name));
    forall k | 0 <= k < |r|
      ensures r[k].entry in entries && NeedsNotification(r[k].entry, locations, minutesBefore, now)
    {
      assert due[k] in due;
    }
    forall x | x in entries && NeedsNotification(x, locations, minutesBefore, now)
      ensures exists k :: 0 <= k < |r| && r[k].entry == x
    {
      var k :| 0 <= k < |due| && due[k] == x;
      assert r[k].entry == x;
    }
    assert Map(r, DueRowEntry) == due;
    r
  }

  function DueRowEntry(row: NotificationRow): QueueEntry {
    row.entry
  }

  /** Marking an entry notified takes it off the notification list. */
  lemma NotifiedLeavesList(entries: seq<QueueEntry>, locations: seq<Locations.Location>, minutesBefore: int, now: int, i: int, at: int)
    requires RowIds(entries) && 0 <= i < |entries|
    ensures forall k :: 0 <= k < |GetEntriesNeedingNotification(MarkedNotified(entries, entries[i].id, at), locations, minutesBefore, now)| ==>
      GetEntriesNeedingNotification(MarkedNotified(entries, entries[i].id, at), locations, minutesBefore, now)[k].entry.id != entries[i].id
  {
    var after := MarkedNotified(entries, entries[i].id, at);
    forall x | x in after && x.id == entries[i].id ensures x.notifiedAt.Some? {
      var j :| 0 <= j < |after| && after[j] == x;
    }
  }

  /** What `joinQueue` returns: the new id, position and estimate, and the join time. */
  datatype JoinReceipt = JoinReceipt(id: int, queuePosition: int, estimatedWaitTime: int, joinedAt: int)

  class QueueRepository {
    var entries: seq<QueueEntry>

    ghost predicate Valid()
      reads this
    {
      RowIds(entries)
    }

    constructor()
      ensures Valid() && entries == []
    {
      entries := [];
    }

    /** `joinQueue({locationId, userId, estimatedWaitTime})`: counts the waiting
        entries, inserts one new entry and returns its receipt; the foreign key
        rejects an unknown location and nothing is inserted. */
    method JoinQueue(locationId: int, userId: string, estimatedWaitTime: int, now: int, locations: seq<Locations.Location>)
      returns (r: Result<JoinReceipt, string>)
      requires Valid()
      modifies this
      ensures Valid()
      ensures Locations.FindById(locations, locationId).None? ==>
        r == Err(Locations.ForeignKeyFailed) && entries == old(entries)
      ensures Locations.FindById(locations, locationId).Some? ==>
        && entries == old(entries) + [NewEntry(old(entries), locationId, userId, estimatedWaitTime, now)]
        && r == Ok(JoinReceipt(|old(entries)| + 1, GetQueueLength(old(entries), locationId) + 1, estimatedWaitTime, now))
    {
      var position := GetQueueLength(entries, locationId) + 1;
      if Locations.FindById(locations, locationId).None? {
        return Err(Locations.ForeignKeyFailed);
      }
      var entry := QueueEntry(|entries| + 1, locationId, userId, position, estimatedWaitTime, now, None, None, Waiting);
      entries := entries + [entry];
      return Ok(JoinReceipt(entry.id, position, estimatedWaitTime, now));
    }

    /** `markAsNotified(entryId)` */
    method MarkAsNotified(entryId: int, now: int)
      requires Valid()
      modifies this
      ensures Valid()
      ensures entries == MarkedNotified(old(entries), entryId, now)
    {
      if 1 <= entryId <= |entries| {
        entries := entries[entryId - 1 := entries[entryId - 1].(notifiedAt := Some(now))];
      }
    }

    /** `completeEntry(entryId)` */
    method CompleteEntry(entryId: int, now: int)
      requires Valid()
      modifies this
      ensures Valid()
      ensures entries == MarkedCompleted(old(entries), entryId, now)
    {
      if 1 <= entryId <= |entries| {
        entries := entries[entryId - 1 := entries[entryId - 1].(status := Completed, completedAt := Some(now))];
      }
    }

    /** `updateQueuePositions(locationId)`: selects the waiting entries' ids in
        join order, then writes position k + 1 to the k-th of them. */
    method UpdateQueuePositions(locationId: int)
      requires Valid()
      modifies this
      ensures Valid()
      ensures entries == Renumbered(old(entries), locationId)
    {
      var order := JoinOrder(entries, locationId);
      JoinOrderNoDup(entries, locationId);
      JoinOrderNamesRows(entries, locationId);
      ghost var before := entries;
      var k := 0;
      while k < |order|
        invariant 0 <= k <= |order|
        invariant entries == PartlyRenumbered(before, order, k)
      {
        assert 1 <= order[k] <= |before|;
        RenumberStep(before, order, k);
        var index := order[k] - 1;
        entries := entries[index := entries[index].(queuePosition := k + 1)];
        k := k + 1;
      }
      RenumberDone(before, locationId);
    }
  }
}
