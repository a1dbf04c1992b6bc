/** The ownership-scoped item store of the data service.

    Two tables: `_items` (id, name, value) and the association table
    `_user2items` (userhash, item_id) with `ON DELETE CASCADE`. Every access
    goes through the join view `items`: inserts through the function
    `insert_into_items`, which writes one item and its one association in a
    single statement; updates and deletes through the view's `DO INSTEAD`
    rules, which only touch an `_items` row that has an association with the
    caller's userhash.

    Because `insert_into_items` is the only writer of `_user2items`, each item
    has exactly one association, and the association table is modelled as
    `owners`, a map from item id to userhash (its own serial id is never read).
    `nextId` is the `BIGSERIAL` sequence of `_items`. */
module Items {
  import opened Common

  /** A JSON object as stored in the JSONB column; its structure is opaque here. */
  datatype Payload = Payload(json: string)

  /** `DBItem`, the record as requests carry it: `value` is None when the
      request's JSON had no object (Go's nil map). */
  datatype DBItem = DBItem(id: int, name: string, value: Option<Payload>)

  /** A row of `_items`; both columns are NOT NULL. */
  datatype Row = Row(name: string, value: Payload)

  datatype StoreError =
    | NotNullViolation(column: string)
    | NoRows
    | NoRowsAffected
    | Failure(message: string)
  {
    /** The error's text, which the handlers compare against. */
    function Text(): string {
      match this
      case NotNullViolation(column) => "pq: null value in column \"" + column + "\" of relation \"_items\" violates not-null constraint"
      case NoRows => "failed to select item from db: sql: no rows in result set"
      case NoRowsAffected => "no rows affected"
      case Failure(message) => message
    }
  }

  datatype Tables = Tables(items: map<int, Row>, owners: map<int, string>, nextId: nat)
  {
    /** Every item has its one association and every association its item
        (the foreign key); every id was drawn from the sequence. */
    ghost predicate Valid() {
      && 1 <= nextId
      && owners.Keys == items.Keys
      && forall id :: id in items ==> 1 <= id < nextId
    }

    /** The view `items` has the row (owner, id): the item exists and is
        associated with `owner`. */
    predicate Visible(id: int, owner: string) {
      id in items && id in owners && owners[id] == owner
    }

    function View(id: int): DBItem
      requires id in items
    {
      DBItem(id, items[id].name, Some(items[id].value))
    }

    /** `Insert`: `insert_into_items(NULLIF(name, ''), value, owner)`. An
        empty name or a nil value is a NULL in a NOT NULL column: the statement
        fails and writes no row, but the sequence value it drew stays used. */
    function Insert(item: DBItem, owner: string): (Tables, Result<int, StoreError>) {
      var id := nextId;
      var drawn := this.(nextId := nextId + 1);
      if item.name == "" then (drawn, Err(NotNullViolation("name")))
      else if item.value.None? then (drawn, Err(NotNullViolation("value")))
      else (Tables(items[id := Row(item.name, item.value.value)], owners[id := owner], nextId + 1), Ok(id))
    }

    /** `Get`: the row of the view with this id and userhash. */
    function Get(id: int, owner: string): Result<DBItem, StoreError> {
      if Visible(id, owner) then Ok(View(id)) else Err(NoRows)
    }

    /** `Update` through the view's rule: `name = COALESCE(NULLIF(name, ''),
        name)`, `value = COALESCE(value, value)`, on the associated row only. */
    function Update(id: int, patch: DBItem, owner: string): (Tables, Option<StoreError>) {
      if !Visible(id, owner) then (this, Some(NoRowsAffected))
      else
        var row := items[id];
        var name := if patch.name != "" then patch.name else row.name;
        var value := if patch.value.Some? then patch.value.value else row.value;
        (this.(items := items[id := Row(name, value)]), None)
    }

    /** `Delete` through the view's rule: the associated `_items` row goes,
        and its association with it by the cascade. */
    function Delete(id: int, owner: string): (Tables, Option<StoreError>) {
      if !Visible(id, owner) then (this, Some(NoRowsAffected))
      else (this.(items := items - {id}, owners := owners - {id}), None)
    }

    /** The owner's rows of the view with id below `bound`, by ascending id. */
    function ListBelow(owner: string, bound: nat): seq<DBItem> {
      if bound == 0 then []
      else ListBelow(owner, bound - 1) + (if Visible(bound - 1, owner) then [View(bound - 1)] else [])
    }

    /** `GetAll`: `SELECT ... FROM items WHERE userhash = owner ORDER BY id`. */
    function Listing(owner: string): seq<DBItem> {
      ListBelow(owner, nextId)
    }
  }

  function Empty(): Tables {
    Tables(map[], map[], 1)
  }

  // ---------------------------------------------------------------------
  // Properties of the transitions
  // ---------------------------------------------------------------------

  lemma EmptyValid()
    ensures Empty().Valid()
  {
  }

  /** Insert writes the item and its association together, or nothing; on
      success the id is the sequence's next value, above every existing id,
      and the new item is visible to its owner with the name and value given.
      `RunIdsFresh` shows no later operation hands that id out again. */
  lemma InsertEffect(t: Tables, item: DBItem, owner: string)
    requires t.Valid()
    ensures var (after, r) := t.Insert(item, owner);
      && after.Valid()
      && after.nextId == t.nextId + 1
      && (r.Err? <==> item.name == "" || item.value.None?)
      && (r.Err? ==> after.items == t.items && after.owners == t.owners)
      && (r.Ok? ==>
           && r.value == t.nextId
           && r.value !in t.items
           && (forall id :: id in t.items ==> id < r.value)
           && after.items == t.items[r.value := Row(item.name, item.value.value)]
           && after.owners == t.owners[r.value := owner]
           && after.Get(r.value, owner) == Ok(DBItem(r.value, item.name, item.value)))
  {
  }

  /** An empty name fails with a NOT NULL violation and writes no row. */
  lemma InsertEmptyNameFails(t: Tables, item: DBItem, owner: string)
    requires item.name == ""
    ensures var (after, r) := t.Insert(item, owner);
      r == Err(NotNullViolation("name")) && after.items == t.items && after.owners == t.owners
  {
  }

  /** Get answers exactly for the owner the item is associated with. */
  lemma GetIffAssociated(t: Tables, id: int, owner: string)
    requires t.Valid()
    ensures t.Get(id, owner).Ok? <==> id in t.owners && t.owners[id] == owner
    ensures t.Get(id, owner).Ok? ==> t.Get(id, owner).value.id == id
  {
  }

  /** A partial update: the name changes only when the new one is non-empty,
      the value only when a new one is given, and nothing else changes; a
      later Get shows the merged record. Without an association: "no rows
      affected" and nothing changes. */
  lemma UpdateEffect(t: Tables, id: int, patch: DBItem, owner: string)
    requires t.Valid()
    ensures var (after, err) := t.Update(id, patch, owner);
      && after.Valid()
      && after.owners == t.owners && after.nextId == t.nextId
      && after.items.Keys == t.items.Keys
      && (forall other :: other in t.items && other != id ==> after.items[other] == t.items[other])
      && (err.Some? <==> !t.Visible(id, owner))
      && (err.Some? ==> err == Some(NoRowsAffected) && after == t)
      && (err.None? ==>
           after.Get(id, owner) == Ok(DBItem(id,
             if patch.name == "" then t.items[id].name else patch.name,
             Some(if patch.value.None? then t.items[id].value else patch.value.value))))
  {
  }

  /** An update with an empty name and no value changes nothing. */
  lemma EmptyPatchKeepsRecord(t: Tables, id: int, owner: string)
    requires t.Visible(id, owner)
    ensures t.Update(id, DBItem(0, "", None), owner) == (t, None)
  {
    var (after, _) := t.Update(id, DBItem(0, "", None), owner);
    assert after.items == t.items;
  }

  /** Delete removes the item and its association, and nothing else; a later
      Get fails for every owner. Without an association: "no rows affected"
      and nothing changes. */
  lemma DeleteEffect(t: Tables, id: int, owner: string)
    requires t.Valid()
    ensures var (after, err) := t.Delete(id, owner);
      && after.Valid()
      && (err.Some? <==> !t.Visible(id, owner))
      && (err.Some? ==> err == Some(NoRowsAffected) && after == t)
      && (err.None? ==>
           && after.items == t.items - {id}
           && after.owners == t.owners - {id}
           && after.nextId == t.nextId
           && forall anyone :: after.Get(id, anyone).Err?)
  {
  }

  /** One call to the store, as the data service makes them. */
  datatype Op =
    | InsertOp(item: DBItem, owner: string)
    | UpdateOp(id: int, patch: DBItem, owner: string)
    | DeleteOp(id: int, owner: string)

  /** The tables after one call, and the id it returned if it was a
      successful insert. */
  function Step(t: Tables, op: Op): (Tables, Option<int>) {
    match op
    case InsertOp(item, owner) =>
      var (after, r) := t.Insert(item, owner);
      (after, if r.Ok? then Some(r.value) else None)
    case UpdateOp(id, patch, owner) => (t.Update(id, patch, owner).0, None)
    case DeleteOp(id, owner) => (t.Delete(id, owner).0, None)
  }

  /** The id a call returned, if any, before the ids of the calls after it. */
  function Prepend(r: Option<int>, ids: seq<int>): seq<int> {
    if r.Some? then [r.value] + ids else ids
  }

  /** The tables after a run of calls, and the ids its successful inserts
      returned, in order. */
  function Run(t: Tables, ops: seq<Op>): (Tables, seq<int>)
    decreases |ops|
  {
    if ops == [] then (t, [])
    else
      var step := Step(t, ops[0]);
      var tail := Run(step.0, ops[1..]);
      (tail.0, Prepend(step.1, tail.1))
  }

  /** Strictly increasing ids, each at least `low` and below `high`. */
  ghost predicate FreshIds(ids: seq<int>, low: int, high: int) {
    && (forall i :: 0 <= i < |ids| ==> low <= ids[i] < high)
    && (forall i, j :: 0 <= i < j < |ids| ==> ids[i] < ids[j])
  }

  /** No call lowers the sequence, and an insert returns its current value. */
  lemma StepAdvances(t: Tables, op: Op)
    ensures Step(t, op).0.nextId >= t.nextId
    ensures Step(t, op).1.Some? ==>
      Step(t, op).1.value == t.nextId && Step(t, op).0.nextId == t.nextId + 1
  {
  }

  lemma PrependFresh(r: Option<int>, ids: seq<int>, low: int, mid: int, high: int)
    requires low <= mid <= high && (r.Some? ==> r.value == low < mid)
    requires FreshIds(ids, mid, high)
    ensures FreshIds(Prepend(r, ids), low, high)
  {
    if r.Some? {
      var all := Prepend(r, ids);
      assert all[0] == low;
      forall i | 0 < i < |all|
        ensures all[i] == ids[i - 1] && mid <= all[i]
      {
      }
    }
  }

  /** Over any run of inserts, updates and deletes, the ids the inserts
      return are strictly increasing, at or above the sequence's value at the
      start (so above every id that existed then) and below its value at the
      end: an id, once handed out, is never handed out again, even after the
      item that had it was deleted. */
  lemma {:induction false} RunIdsFresh(t: Tables, ops: seq<Op>)
    ensures Run(t, ops).0.nextId >= t.nextId
    ensures FreshIds(Run(t, ops).1, t.nextId, Run(t, ops).0.nextId)
    ensures t.Valid() ==> forall i :: 0 <= i < |Run(t, ops).1| ==> Run(t, ops).1[i] !in t.items
    decreases |ops|
  {
    if ops != [] {
      var step := Step(t, ops[0]);
      StepAdvances(t, ops[0]);
      RunIdsFresh(step.0, ops[1..]);
      var tail := Run(step.0, ops[1..]);
      PrependFresh(step.1, tail.1, t.nextId, step.0.nextId, tail.0.nextId);
    }
  }

  lemma {:induction false} ListBelowBounded(t: Tables, owner: string, bound: nat)
    ensures forall i :: 0 <= i < |t.ListBelow(owner, bound)| ==> t.ListBelow(owner, bound)[i].id < bound
  {
    if bound > 0 {
      ListBelowBounded(t, owner, bound - 1);
    }
  }

  /** Strictly ascending by id. */
  ghost predicate AscendingIds(list: seq<DBItem>) {
    forall i, j :: 0 <= i < j < |list| ==> list[i].id < list[j].id
  }

  lemma {:induction false} ListBelowSorted(t: Tables, owner: string, bound: nat)
    ensures AscendingIds(t.ListBelow(owner, bound))
  {
    if bound > 0 {
      ListBelowSorted(t, owner, bound - 1);
      ListBelowBounded(t, owner, bound - 1);
      var prev := t.ListBelow(owner, bound - 1);
      var list := t.ListBelow(owner, bound);
      if t.Visible(bound - 1, owner) {
        assert list == prev + [t.View(bound - 1)];
        forall i, j | 0 <= i < j < |list|
          ensures list[i].id < list[j].id
        {
          assert list[i] == prev[i];
          if j < |prev| {
            assert list[j] == prev[j];
          }
        }
      } else {
        assert list == prev;
      }
    }
  }

  lemma {:induction false} ListBelowMembers(t: Tables, owner: string, bound: nat, x: DBItem)
    ensures x in t.ListBelow(owner, bound) <==>
      0 <= x.id < bound && t.Visible(x.id, owner) && x == t.View(x.id)
  {
    if bound > 0 {
      ListBelowMembers(t, owner, bound - 1, x);
    }
  }

  /** GetAll lists exactly the owner's items, each with its stored name and
      value, in strictly ascending id order. */
  lemma ListingExact(t: Tables, owner: string)
    requires t.Valid()
    ensures var list := t.Listing(owner);
      && AscendingIds(list)
      && (forall x :: x in list <==> t.Get(x.id, owner) == Ok(x))
  {
    ListBelowSorted(t, owner, t.nextId);
    forall x
      ensures x in t.Listing(owner) <==> t.Get(x.id, owner) == Ok(x)
    {
      ListBelowMembers(t, owner, t.nextId, x);
    }
  }

  /** Tenant isolation: an item associated with A is invisible to every other
      owner B: B's Get fails, B's Update and Delete report "no rows affected"
      and change nothing, B's listing does not contain it; and no operation
      under B changes what A sees of it. */
  lemma Isolation(t: Tables, id: int, a: string, b: string, patch: DBItem, item: DBItem)
    requires t.Valid() && a != b && t.Visible(id, a)
    ensures t.Get(id, b).Err?
    ensures t.Update(id, patch, b) == (t, Some(NoRowsAffected))
    ensures t.Delete(id, b) == (t, Some(NoRowsAffected))
    ensures forall x :: x in t.Listing(b) ==> x.id != id
    ensures forall other :: t.Update(other, patch, b).0.Get(id, a) == t.Get(id, a)
    ensures forall other :: t.Delete(other, b).0.Get(id, a) == t.Get(id, a)
    ensures t.Insert(item, b).0.Get(id, a) == t.Get(id, a)
  {
    forall x | x in t.Listing(b)
      ensures x.id != id
    {
      ListBelowMembers(t, b, t.nextId, x);
    }
  }

  /** The store object: the two tables and the sequence. */
  class ItemStore {
    var items: map<int, Row>
    var owners: map<int, string>
    var nextId: nat

    function State(): Tables
      reads this
    {
      Tables(items, owners, nextId)
    }

    ghost predicate Valid()
      reads this
    {
      State().Valid()
    }

    constructor ()
      ensures Valid() && State() == Empty()
    {
      items, owners, nextId := map[], map[], 1;
    }

    /** Returns the new id, or 0 and the error. */
    method Insert(item: DBItem, owner: string) returns (id: int, err: Option<StoreError>)
      requires Valid()
      modifies this
      ensures Valid()
      ensures State() == old(State()).Insert(item, owner).0
      ensures old(State()).Insert(item, owner).1 == if err.None? then Ok(id) else Err(err.value)
      ensures err.Some? ==> id == 0
    {
      InsertEffect(State(), item, owner);
      var drawn := nextId;
      nextId := nextId + 1;
      if item.name == "" {
        return 0, Some(NotNullViolation("name"));
      }
      if item.value.None? {
        return 0, Some(NotNullViolation("value"));
      }
      items := items[drawn := Row(item.name, item.value.value)];
      owners := owners[drawn := owner];
      id, err := drawn, None;
    }

    method Get(id: int, owner: string) returns (r: Result<DBItem, StoreError>)
      ensures r.Ok? <==> id in items && id in owners && owners[id] == owner
      ensures r.Ok? ==> r.value == DBItem(id, items[id].name, Some(items[id].value))
      ensures r.Err? ==> r.error == NoRows
    {
      if id in items && id in owners && owners[id] == owner {
        r := Ok(DBItem(id, items[id].name, Some(items[id].value)));
      } else {
        r := Err(NoRows);
      }
    }

    /** Scans the view by ascending id, appending the owner's rows. */
    method GetAll(owner: string) returns (list: seq<DBItem>)
      requires Valid()
      ensures list == State().Listing(owner)
    {
      list := [];
      var id := 0;
      while id < nextId
        invariant 0 <= id <= nextId
        invariant list == State().ListBelow(owner, id)
      {
        if id in owners && owners[id] == owner {
          list := list + [DBItem(id, items[id].name, Some(items[id].value))];
        }
        id := id + 1;
      }
    }

    method Update(id: int, patch: DBItem, owner: string) returns (err: Option<StoreError>)
      requires Valid()
      modifies this
      ensures Valid()
      ensures (State(), err) == old(State()).Update(id, patch, owner)
    {
      UpdateEffect(State(), id, patch, owner);
      if !(id in items && id in owners && owners[id] == owner) {
        return Some(NoRowsAffected);
      }
      var row := items[id];
      var name := if patch.name != "" then patch.name else row.name;
      var value := if patch.value.Some? then patch.value.value else row.value;
      items := items[id := Row(name, value)];
      err := None;
    }

    method Delete(id: int, owner: string) returns (err: Option<StoreError>)
      requires Valid()
      modifies this
      ensures Valid()
      ensures (State(), err) == old(State()).Delete(id, owner)
    {
      DeleteEffect(State(), id, owner);
      if !(id in items && id in owners && owners[id] == owner) {
        return Some(NoRowsAffected);
      }
      items := items - {id};
      owners := owners - {id};
      err := None;
    }
  }
}
