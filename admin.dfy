/** The admin dashboard: the four status counts shown in its stats panel and
    the approve, reject and delete actions of the found-items table. */
module Admin {
  import opened Entities
  import opened Store

  /** `rows.filter(r => r.status === s).length` over a fetched list, with
      `st` reading the status of either kind of record. */
  function CountWithStatus<T>(rows: seq<Stored<T>>, st: T -> Status, s: Status): (n: nat)
    ensures n <= |rows|
    ensures n == 0 <==> forall i :: 0 <= i < |rows| ==> st(rows[i].entity) != s
    ensures n == |rows| <==> forall i :: 0 <= i < |rows| ==> st(rows[i].entity) == s
  {
    if rows == [] then 0
    else CountWithStatus(rows[1..], st, s) + (if st(rows[0].entity) == s then 1 else 0)
  }

  /** The stats panel: Pending Items, Approved Items, Pending Claims, Items Claimed. */
  datatype Stats = Stats(pendingItems: nat, approvedItems: nat, pendingClaims: nat, itemsClaimed: nat)

  function DashboardStats(items: seq<Stored<FoundItem>>, claims: seq<Stored<ClaimRequest>>): (st: Stats)
    ensures st.pendingItems + st.approvedItems + st.itemsClaimed <= |items|
    ensures st.pendingClaims <= |claims|
  {
    CountsPartition(items, ItemStatus);
    Stats(CountWithStatus(items, ItemStatus, Pending), CountWithStatus(items, ItemStatus, Approved),
          CountWithStatus(claims, ClaimStatus, Pending), CountWithStatus(items, ItemStatus, Claimed))
  }

  /** Every item has exactly one of the four statuses, so the four counts
      add up to the length of the list. */
  lemma {:induction false} CountsPartition<T>(rows: seq<Stored<T>>, st: T -> Status)
    ensures CountWithStatus(rows, st, Pending) + CountWithStatus(rows, st, Approved)
            + CountWithStatus(rows, st, Rejected) + CountWithStatus(rows, st, Claimed) == |rows|
  {
    if rows != [] {
      CountsPartition(rows[1..], st);
    }
  }

  /** A fetched list that lists the store counts exactly the store's records
      of each status, whatever order the store returned them in: the item
      counts are the store's item counts, and Pending Claims is the store's
      number of pending claims. */
  lemma {:induction false} CountMatchesStore<T>(rows: seq<Stored<T>>, m: map<nat, T>, st: T -> Status, s: Status)
    requires Lists(rows, m)
    ensures CountWithStatus(rows, st, s) == |IdsWithStatus(m, st, s)|
    decreases |rows|
  {
    if rows == [] {
      assert IdsWithStatus(m, st, s) == {};
    } else {
      var h := rows[0];
      var m' := m - {h.id};
      var t := rows[1..];
      forall id | id in m' ensures exists i :: 0 <= i < |t| && t[i].id == id {
        var i :| 0 <= i < |rows| && rows[i].id == id;
        assert i != 0 && t[i - 1].id == id;
      }
      forall i | 0 <= i < |t| ensures t[i].id in m' && m'[t[i].id] == t[i].entity {
        assert t[i] == rows[i + 1];
      }
      forall i, j | 0 <= i < j < |t| ensures t[i].id != t[j].id {
        assert t[i] == rows[i + 1] && t[j] == rows[j + 1];
      }
      assert Lists(t, m');
      CountMatchesStore(t, m', st, s);
      SplitCount(m, st, h.id, s);
    }
  }

  /** The approve and reject buttons are rendered only for a pending item. */
  predicate ModerationOffered(items: map<nat, FoundItem>, id: nat)
    ensures ModerationOffered(items, id) <==> id in IdsWithStatus(items, ItemStatus, Pending)
  {
    id in items && items[id].status == Pending
  }

  /** The approve button: `update(id, {status: 'approved'})`, offered only
      while the item is pending. Otherwise nothing happens. */
  method Approve(store: EntityStore, id: nat) returns (issued: bool)
    requires store.Valid()
    modifies store
    ensures store.Valid()
    ensures issued <==> ModerationOffered(old(store.items), id)
    ensures store.items == if issued then SetStatus(old(store.items), id, Approved) else old(store.items)
    ensures store.claims == old(store.claims)
  {
    issued := ModerationOffered(store.items, id);
    if issued {
      var _ := store.UpdateItemStatus(id, Approved);
    }
  }

  /** The reject button: `update(id, {status: 'rejected'})`, offered only
      while the item is pending. Otherwise nothing happens. */
  method Reject(store: EntityStore, id: nat) returns (issued: bool)
    requires store.Valid()
    modifies store
    ensures store.Valid()
    ensures issued <==> ModerationOffered(old(store.items), id)
    ensures store.items == if issued then SetStatus(old(store.items), id, Rejected) else old(store.items)
    ensures store.claims == old(store.claims)
  {
    issued := ModerationOffered(store.items, id);
    if issued {
      var _ := store.UpdateItemStatus(id, Rejected);
    }
  }

  /** The delete button, offered for an item in any status: afterwards the
      item is gone and every other item and every claim is as it was. */
  method Delete(store: EntityStore, id: nat) returns (ok: bool)
    requires store.Valid()
    modifies store
    ensures store.Valid()
    ensures ok <==> id in old(store.items)
    ensures id !in store.items
    ensures forall k :: k in old(store.items) && k != id ==> k in store.items && store.items[k] == old(store.items)[k]
    ensures store.items.Keys == old(store.items).Keys - {id}
    ensures store.claims == old(store.claims)
  {
    ok := store.DeleteItem(id);
  }

  /** Approving a pending item moves it from the Pending Items count to the
      Approved Items count; rejecting it only takes it off the pending count.
      The Items Claimed count is untouched by either. */
  lemma ModerationCounts(m: map<nat, FoundItem>, id: nat)
    requires ModerationOffered(m, id)
    ensures |IdsWithStatus(SetStatus(m, id, Approved), ItemStatus, Pending)| == |IdsWithStatus(m, ItemStatus, Pending)| - 1
    ensures |IdsWithStatus(SetStatus(m, id, Approved), ItemStatus, Approved)| == |IdsWithStatus(m, ItemStatus, Approved)| + 1
    ensures |IdsWithStatus(SetStatus(m, id, Rejected), ItemStatus, Pending)| == |IdsWithStatus(m, ItemStatus, Pending)| - 1
    ensures |IdsWithStatus(SetStatus(m, id, Rejected), ItemStatus, Approved)| == |IdsWithStatus(m, ItemStatus, Approved)|
    ensures |IdsWithStatus(SetStatus(m, id, Approved), ItemStatus, Claimed)| == |IdsWithStatus(m, ItemStatus, Claimed)|
    ensures |IdsWithStatus(SetStatus(m, id, Rejected), ItemStatus, Claimed)| == |IdsWithStatus(m, ItemStatus, Claimed)|
  {
    SetStatusCounts(m, id, Approved, Pending);
    SetStatusCounts(m, id, Approved, Approved);
    SetStatusCounts(m, id, Rejected, Pending);
    SetStatusCounts(m, id, Rejected, Approved);
    SetStatusCounts(m, id, Approved, Claimed);
    SetStatusCounts(m, id, Rejected, Claimed);
  }

  /** No status ever leads back to pending through the dashboard: once an
      item has left pending, approve and reject are no longer offered. */
  lemma ModerationIsOneShot(m: map<nat, FoundItem>, id: nat, s: Status)
    requires id in m && s != Pending
    ensures !ModerationOffered(SetStatus(m, id, s), id)
  {
  }
}
