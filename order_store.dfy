/** The order repository as abstract state: a table of orders keyed by id,
    the ids in insertion order (the order `list` pages through), and a log of
    the writes the repository was asked to perform. */
module OrderStore {
  import opened Wrappers
  import opened JsValues
  import opened OrderEntity

  datatype Table = Table(rows: map<int, Order>, ids: seq<int>)

  /** A write request received by the repository. */
  datatype RepoCall = CreateCall(order: Order) | UpdateCall(order: Order) | DeleteCall(id: int)

  /** `create` of an order whose id is already stored (a unique-key violation). */
  const DUPLICATE_ID: Exception := Exception("StorageError", "Unique constraint failed on id", [])
  /** `update` of an order that is not stored. */
  const RECORD_NOT_FOUND: Exception := Exception("StorageError", "Record to update not found", [])

  predicate Distinct(s: seq<int>)
  {
    forall i, j :: 0 <= i < j < |s| ==> s[i] != s[j]
  }

  /** Every id is listed once, the listed ids are exactly the stored keys, and
      each row is stored under its own id. */
  ghost predicate WellFormed(t: Table)
  {
    && Distinct(t.ids)
    && (forall k :: k in t.rows <==> k in t.ids)
    && (forall k :: k in t.rows ==> t.rows[k].id == k)
  }

  function Find(t: Table, id: int): (r: Option<Order>)
    requires WellFormed(t)
    ensures r.Some? <==> id in t.rows
    ensures r.Some? ==> r.value == t.rows[id] && r.value.id == id
  {
    if id in t.rows then Some(t.rows[id]) else None
  }

  /** Adds a new row at the end of the listing order. */
  function Insert(t: Table, o: Order): (r: Table)
    requires WellFormed(t) && o.id !in t.rows
    ensures WellFormed(r)
    ensures r.rows.Keys == t.rows.Keys + {o.id} && r.rows[o.id] == o
    ensures forall k :: k in t.rows ==> r.rows[k] == t.rows[k]
    ensures r.ids == t.ids + [o.id]
  {
    Table(t.rows[o.id := o], t.ids + [o.id])
  }

  /** Overwrites an existing row; the listing order is kept. */
  function Replace(t: Table, o: Order): (r: Table)
    requires WellFormed(t) && o.id in t.rows
    ensures WellFormed(r)
    ensures r.rows.Keys == t.rows.Keys && r.rows[o.id] == o
    ensures forall k :: k in t.rows && k != o.id ==> r.rows[k] == t.rows[k]
    ensures r.ids == t.ids
  {
    Table(t.rows[o.id := o], t.ids)
  }

  /** A second overwrite of the same row wins. */
  lemma ReplaceTwice(t: Table, first: Order, second: Order)
    requires WellFormed(t) && first.id in t.rows && second.id == first.id
    ensures Replace(Replace(t, first), second) == Replace(t, second)
  {
  }

  /** `s` with every occurrence of `x` dropped, the rest in order. */
  function Without(s: seq<int>, x: int): (r: seq<int>)
    ensures forall y :: y in r <==> y in s && y != x
    ensures Distinct(s) ==> Distinct(r)
    ensures |r| <= |s|
    decreases |s|
  {
    if s == [] then []
    else if s[0] == x then Without(s[1..], x)
    else
      var rest := Without(s[1..], x);
      assert Distinct(s) ==> s[0] !in s[1..] && Distinct(s[1..]) by {
        if Distinct(s) { DistinctTail(s); }
      }
      DistinctCons(s[0], rest);
      [s[0]] + rest
  }

  lemma DistinctCons(a: int, r: seq<int>)
    ensures a !in r && Distinct(r) ==> Distinct([a] + r)
  {
    if a !in r && Distinct(r) {
      forall i, j | 0 <= i < j < |[a] + r| ensures ([a] + r)[i] != ([a] + r)[j] {
        assert ([a] + r)[j] == r[j - 1];
        if i > 0 { assert ([a] + r)[i] == r[i - 1]; }
      }
    }
  }

  /** On a list without repetitions, `Without` removes exactly the one
      position holding `x`. */
  lemma {:induction false} WithoutAt(s: seq<int>, i: nat)
    requires Distinct(s) && i < |s|
    ensures Without(s, s[i]) == s[..i] + s[i + 1..]
    decreases |s|
  {
    DistinctTail(s);
    if i == 0 {
      assert Without(s, s[0]) == Without(s[1..], s[0]);
      WithoutAbsent(s[1..], s[0]);
    } else {
      var x := s[i];
      assert s[1..][i - 1] == x;
      assert s[0] != x;
      assert Without(s, x) == [s[0]] + Without(s[1..], x);
      WithoutAt(s[1..], i - 1);
      assert s[..i] == [s[0]] + s[1..][..i - 1];
      assert s[i + 1..] == s[1..][i..];
    }
  }

  lemma DistinctTail(s: seq<int>)
    requires Distinct(s) && s != []
    ensures Distinct(s[1..]) && s[0] !in s[1..]
  {
    forall j | 0 <= j < |s| - 1 ensures s[1..][j] != s[0] {
      assert s[1..][j] == s[j + 1];
    }
  }

  /** Removing an id that is not listed changes nothing. */
  lemma {:induction false} WithoutAbsent(s: seq<int>, x: int)
    requires x !in s
    ensures Without(s, x) == s
    decreases |s|
  {
    if s != [] {
      WithoutAbsent(s[1..], x);
    }
  }

  /** Drops a row (if any) and its place in the listing order. */
  function Remove(t: Table, id: int): (r: Table)
    requires WellFormed(t)
    ensures WellFormed(r)
    ensures r.rows.Keys == t.rows.Keys - {id}
    ensures forall k :: k in r.rows ==> r.rows[k] == t.rows[k]
    ensures id !in t.rows ==> r == t
    // the other ids keep their listing order
    ensures id in t.rows ==>
      exists i :: 0 <= i < |t.ids| && t.ids[i] == id && r.ids == t.ids[..i] + t.ids[i + 1..]
  {
    if id !in t.rows then WithoutAbsent(t.ids, id); t
    else RemoveAt(t.ids, id); Table(t.rows - {id}, Without(t.ids, id))
  }

  /** Dropping an id that is listed once cuts it out at its position. */
  lemma RemoveAt(s: seq<int>, x: int)
    requires Distinct(s) && x in s
    ensures exists i :: 0 <= i < |s| && s[i] == x && Without(s, x) == s[..i] + s[i + 1..]
  {
    var i :| 0 <= i < |s| && s[i] == x;
    WithoutAt(s, i);
  }

  function Min(a: int, b: int): int
  {
    if a <= b then a else b
  }

  /** Every listed id is stored. */
  lemma ListedIsStored(t: Table)
    requires WellFormed(t)
    ensures forall j :: 0 <= j < |t.ids| ==> t.ids[j] in t.rows
  {
    forall j | 0 <= j < |t.ids| ensures t.ids[j] in t.rows {
      assert t.ids[j] in t.ids;
    }
  }

  /** Up to `limit` rows, starting at position `offset` of the listing order. */
  function Page(t: Table, limit: nat, offset: nat): (r: seq<Order>)
    requires WellFormed(t)
    ensures |r| == if offset >= |t.ids| then 0 else Min(limit, |t.ids| - offset)
    ensures forall i :: 0 <= i < |r| ==> offset + i < |t.ids| && t.ids[offset + i] in t.rows && r[i] == t.rows[t.ids[offset + i]]
  {
    ListedIsStored(t);
    var lo := Min(offset, |t.ids|);
    var hi := Min(lo + limit, |t.ids|);
    seq(hi - lo, i requires 0 <= i < hi - lo => t.rows[t.ids[lo + i]])
  }

  /** The concrete storage behind the service. */
  class OrderRepository {
    var rows: map<int, Order>
    var ids: seq<int>
    /** The write requests received so far (model bookkeeping only). */
    ghost var calls: seq<RepoCall>

    function State(): Table
      reads this
    {
      Table(rows, ids)
    }

    ghost predicate Valid()
      reads this
    {
      WellFormed(State())
    }

    constructor ()
      ensures Valid() && State() == Table(map[], []) && calls == []
    {
      rows, ids := map[], [];
      calls := [];
    }

    /** `create(order)`: stores a new order; a duplicate id is refused. */
    method Create(o: Order) returns (r: Result<Order, Exception>)
      requires Valid()
      modifies this
      ensures Valid()
      ensures calls == old(calls) + [CreateCall(o)]
      ensures o.id in old(rows) ==> r == Failure(DUPLICATE_ID) && State() == old(State())
      ensures o.id !in old(rows) ==> r == Success(o) && State() == Insert(old(State()), o)
    {
      calls := calls + [CreateCall(o)];
      if o.id in rows {
        return Failure(DUPLICATE_ID);
      }
      rows, ids := rows[o.id := o], ids + [o.id];
      r := Success(o);
    }

    /** `findById(id)`: the stored order, or nothing; never fails. */
    method FindById(id: int) returns (r: Option<Order>)
      requires Valid()
      ensures r == Find(State(), id)
    {
      r := if id in rows then Some(rows[id]) else None;
    }

    /** `update(order)`: overwrites the stored order with the same id. */
    method Update(o: Order) returns (r: Result<Order, Exception>)
      requires Valid()
      modifies this
      ensures Valid()
      ensures calls == old(calls) + [UpdateCall(o)]
      ensures o.id !in old(rows) ==> r == Failure(RECORD_NOT_FOUND) && State() == old(State())
      ensures o.id in old(rows) ==> r == Success(o) && State() == Replace(old(State()), o)
    {
      calls := calls + [UpdateCall(o)];
      if o.id !in rows {
        return Failure(RECORD_NOT_FOUND);
      }
      rows := rows[o.id := o];
      r := Success(o);
    }

    /** `delete(id)`: true when a row was removed, false when there was none. */
    method Delete(id: int) returns (removed: bool)
      requires Valid()
      modifies this
      ensures Valid()
      ensures calls == old(calls) + [DeleteCall(id)]
      ensures removed == (id in old(rows))
      ensures State() == Remove(old(State()), id)
    {
      calls := calls + [DeleteCall(id)];
      removed := id in rows;
      if removed {
        rows, ids := rows - {id}, Without(ids, id);
      }
    }

    /** `list(limit, offset)`. */
    method List(limit: nat, offset: nat) returns (r: seq<Order>)
      requires Valid()
      ensures r == Page(State(), limit, offset)
    {
      r := Page(State(), limit, offset);
    }
  }
}
