/** An in-memory stand-in for the remote entity store: found items and claim
    requests keyed by a store-assigned id, with the create, update and
    delete calls the pages issue. Only what the call payloads say is
    modelled: `create` stores the record it is given under a fresh id,
    `update(id, {status})` changes that record's status and nothing else,
    `delete(id)` removes the record; update and delete fail on an unknown id. */
module Store {
  import opened Entities

  /** The ids of the records whose status, read by `st`, is `s`. */
  function IdsWithStatus<T>(m: map<nat, T>, st: T -> Status, s: Status): (ids: set<nat>) {
    set id | id in m && st(m[id]) == s
  }

  /** The item map after `update(id, {status: s})`; an unknown id changes nothing. */
  function SetStatus(m: map<nat, FoundItem>, id: nat, s: Status): (r: map<nat, FoundItem>)
    ensures r.Keys == m.Keys
    ensures id in m ==> r[id].status == s && r[id] == m[id].(status := s)
    ensures forall k :: k in m && k != id ==> r[k] == m[k]
  {
    if id in m then m[id := m[id].(status := s)] else m
  }

  /** `rows` is a fetched list of the records of `m`: every row is a record
      of `m` under its id, every record appears, and no id appears twice.
      The order of the rows is the store's business and is left open. */
  ghost predicate Lists<T>(rows: seq<Stored<T>>, m: map<nat, T>) {
    && (forall i :: 0 <= i < |rows| ==> rows[i].id in m && m[rows[i].id] == rows[i].entity)
    && (forall id :: id in m ==> exists i :: 0 <= i < |rows| && rows[i].id == id)
    && (forall i, j :: 0 <= i < j < |rows| ==> rows[i].id != rows[j].id)
  }

  /** Splitting off one id from the ids with a given status. */
  lemma SplitIds<T>(m: map<nat, T>, st: T -> Status, id: nat, s: Status)
    requires id in m
    ensures IdsWithStatus(m, st, s) == IdsWithStatus(m - {id}, st, s) + (if st(m[id]) == s then {id} else {})
    ensures id !in IdsWithStatus(m - {id}, st, s)
  {
  }

  /** The count of a status, with one record taken out and added back. */
  lemma SplitCount<T>(m: map<nat, T>, st: T -> Status, id: nat, s: Status)
    requires id in m
    ensures |IdsWithStatus(m, st, s)| == |IdsWithStatus(m - {id}, st, s)| + (if st(m[id]) == s then 1 else 0)
  {
    SplitIds(m, st, id, s);
  }

  /** A status change moves exactly one item from the count of its old
      status to the count of its new one; every other count is unchanged. */
  lemma {:induction false} SetStatusCounts(m: map<nat, FoundItem>, id: nat, to: Status, s: Status)
    requires id in m
    ensures |IdsWithStatus(SetStatus(m, id, to), ItemStatus, s)|
            == |IdsWithStatus(m, ItemStatus, s)| - (if m[id].status == s then 1 else 0) + (if to == s then 1 else 0)
  {
    var r := SetStatus(m, id, to);
    assert r - {id} == m - {id};
    SplitCount(m, ItemStatus, id, s);
    SplitCount(r, ItemStatus, id, s);
  }

  /** Storing a new record under an unused id raises the count of its status
      by one and leaves every other count unchanged. */
  lemma {:induction false} NewRecordCounts<T>(m: map<nat, T>, st: T -> Status, id: nat, x: T, s: Status)
    requires id !in m
    ensures |IdsWithStatus(m[id := x], st, s)| == |IdsWithStatus(m, st, s)| + (if st(x) == s then 1 else 0)
  {
    assert m[id := x] - {id} == m;
    SplitCount(m[id := x], st, id, s);
  }

  /** Deleting a record removes it from the count of its status and from no other. */
  lemma {:induction false} DeleteCounts<T>(m: map<nat, T>, st: T -> Status, id: nat, s: Status)
    ensures |IdsWithStatus(m - {id}, st, s)|
            == |IdsWithStatus(m, st, s)| - (if id in m && st(m[id]) == s then 1 else 0)
  {
    if id in m {
      SplitCount(m, st, id, s);
    } else {
      assert m - {id} == m;
    }
  }

  class EntityStore {
    var items: map<nat, FoundItem>
    var claims: map<nat, ClaimRequest>
    var nextId: nat

    /** Every id in use is below `nextId`, so `nextId` is always fresh. */
    ghost predicate Valid()
      reads this
    {
      && (forall id :: id in items ==> id < nextId)
      && (forall id :: id in claims ==> id < nextId)
    }

    constructor ()
      ensures Valid() && items == map[] && claims == map[]
    {
      items, claims, nextId := map[], map[], 0;
    }

    /** `FoundItem.create(item)`: the record is stored unchanged under a new id. */
    method CreateItem(item: FoundItem) returns (id: nat)
      requires Valid()
      modifies this
      ensures Valid()
      ensures id !in old(items) && items == old(items)[id := item]
      ensures claims == old(claims)
    {
      id := nextId;
      items := items[id := item];
      nextId := nextId + 1;
    }

    /** `ClaimRequest.create(claim)`: the record is stored unchanged under a new id. */
    method CreateClaim(claim: ClaimRequest) returns (id: nat)
      requires Valid()
      modifies this
      ensures Valid()
      ensures id !in old(claims) && claims == old(claims)[id := claim]
      ensures items == old(items)
    {
      id := nextId;
      claims := claims[id := claim];
      nextId := nextId + 1;
    }

    /** `FoundItem.update(id, {status: s})`: fails on an unknown id, otherwise
        changes that item's status and nothing else. */
    method UpdateItemStatus(id: nat, s: Status) returns (ok: bool)
      requires Valid()
      modifies this
      ensures Valid()
      ensures ok <==> id in old(items)
      ensures items == SetStatus(old(items), id, s)
      ensures claims == old(claims) && nextId == old(nextId)
    {
      ok := id in items;
      if ok {
        items := items[id := items[id].(status := s)];
      }
    }

    /** `FoundItem.delete(id)`: fails on an unknown id, otherwise removes that
        item. Claims that refer to it are left as they are. */
    method DeleteItem(id: nat) returns (ok: bool)
      requires Valid()
      modifies this
      ensures Valid()
      ensures ok <==> id in old(items)
      ensures items == old(items) - {id}
      ensures claims == old(claims) && nextId == old(nextId)
    {
      ok := id in items;
      items := items - {id};
    }
  }
}
