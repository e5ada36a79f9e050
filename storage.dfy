/**
 * The database list kept in browser storage (src/utils/storage.ts).
 *
 * The stored JSON array under one key becomes the field `databases` of an
 * `InventoryStore`; every operation reads that list and, when it writes,
 * replaces it. The functions before the class say what each operation does to
 * the list; the lemmas after them state what the store promises.
 */
module Storage {
  import opened Text
  import opened Inventory

  /** `databases.findIndex(db => db.id === id)`. */
  function IndexById(dbs: seq<Database>, id: string): (r: Option<nat>)
    ensures r.Some? ==> r.value < |dbs| && dbs[r.value].id == id
    ensures r.Some? ==> forall j :: 0 <= j < r.value ==> dbs[j].id != id
    ensures r.None? ==> forall j :: 0 <= j < |dbs| ==> dbs[j].id != id
  {
    if dbs == [] then None
    else if dbs[0].id == id then Some(0)
    else match IndexById(dbs[1..], id)
      case None => None
      case Some(i) => Some(i + 1)
  }

  /** `databases.find(db => db.id === id) || null`. */
  function Lookup(dbs: seq<Database>, id: string): (r: Option<Database>)
  {
    match IndexById(dbs, id)
    case None => None
    case Some(i) => Some(dbs[i])
  }

  /** The list `saveDatabase(d)` writes back. */
  function Saved(dbs: seq<Database>, d: Database): seq<Database>
  {
    match IndexById(dbs, d.id)
    case Some(i) => dbs[i := d]
    case None => dbs + [d]
  }

  /** The list `deleteDatabase(id)` writes back: a filter on the id. */
  function Deleted(dbs: seq<Database>, id: string): (r: seq<Database>)
  {
    if dbs == [] then []
    else if dbs[0].id == id then Deleted(dbs[1..], id)
    else [dbs[0]] + Deleted(dbs[1..], id)
  }

  /** `items.findIndex(item => item.NUMERO === numero)`. */
  function IndexByNumero(items: seq<Item>, numero: string): (r: Option<nat>)
    ensures r.Some? ==> r.value < |items| && HasNumero(items[r.value], numero)
    ensures r.Some? ==> forall j :: 0 <= j < r.value ==> !HasNumero(items[j], numero)
    ensures r.None? ==> forall j :: 0 <= j < |items| ==> !HasNumero(items[j], numero)
  {
    if items == [] then None
    else if HasNumero(items[0], numero) then Some(0)
    else match IndexByNumero(items[1..], numero)
      case None => None
      case Some(i) => Some(i + 1)
  }

  /** `{ ...item, ...updates }`: keys of `updates` win. */
  function Merge(item: Item, updates: Item): (r: Item)
    ensures r.Keys == item.Keys + updates.Keys
    ensures forall k :: k in updates ==> r[k] == updates[k]
    ensures forall k :: k in item && k !in updates ==> r[k] == item[k]
  {
    item + updates
  }

  /** The list after `updateItem(databaseId, itemNumero, updates)`. */
  function Updated(dbs: seq<Database>, databaseId: string, itemNumero: string, updates: Item): seq<Database>
  {
    match Lookup(dbs, databaseId)
    case None => dbs
    case Some(db) =>
      match IndexByNumero(db.items, itemNumero)
      case None => dbs
      case Some(k) => Saved(dbs, db.(items := db.items[k := Merge(db.items[k], updates)]))
  }

  /** The browser storage slot holding the list of imported databases. */
  class InventoryStore {
    var databases: seq<Database>

    /** An empty slot: `getAllDatabases` returns `[]` when nothing is stored. */
    constructor ()
      ensures databases == []
    {
      databases := [];
    }

    /** `getDatabase(id)`: the first stored database with that id, or null. */
    function GetDatabase(id: string): (r: Option<Database>)
      reads this
      ensures r.Some? ==> r.value in databases && r.value.id == id
      ensures r.None? <==> forall d :: d in databases ==> d.id != id
    {
      Lookup(databases, id)
    }

    /** `saveDatabase(database)`: overwrite the first entry with the same id,
        else append. */
    method SaveDatabase(database: Database)
      modifies this
      ensures databases == Saved(old(databases), database)
    {
      var index := IndexById(databases, database.id);
      if index.Some? {
        databases := databases[index.value := database];
      } else {
        databases := databases + [database];
      }
    }

    /** `deleteDatabase(id)`: keep the databases whose id differs. */
    method DeleteDatabase(id: string)
      modifies this
      ensures databases == Deleted(old(databases), id)
    {
      databases := Deleted(databases, id);
    }

    /** `updateItem(databaseId, itemNumero, updates)`: merge `updates` into the
        first item with that NUMERO of the first database with that id, and
        save that database back. */
    method UpdateItem(databaseId: string, itemNumero: string, updates: Item)
      modifies this
      ensures databases == Updated(old(databases), databaseId, itemNumero, updates)
    {
      var database := GetDatabase(databaseId);
      if database.None? {
        return;
      }
      var db := database.value;
      var itemIndex := IndexByNumero(db.items, itemNumero);
      if itemIndex.Some? {
        var k := itemIndex.value;
        db := db.(items := db.items[k := Merge(db.items[k], updates)]);
        SaveDatabase(db);
      }
    }
  }

  /** `getDatabase(id)` finds the first stored database with that id. */
  lemma LookupFirst(dbs: seq<Database>, id: string)
    ensures Lookup(dbs, id).Some? <==> exists i :: 0 <= i < |dbs| && dbs[i].id == id
    ensures forall i :: 0 <= i < |dbs| && dbs[i].id == id && (forall j :: 0 <= j < i ==> dbs[j].id != id) ==>
                          Lookup(dbs, id) == Some(dbs[i])
  {
  }

  /** `saveDatabase` replaces the first entry with the same id in place (the
      length is unchanged) or else appends at the end; every other entry is
      unchanged. */
  lemma SaveReplacesOrAppends(dbs: seq<Database>, d: Database)
    ensures (exists i :: 0 <= i < |dbs| && dbs[i].id == d.id) ==>
      && |Saved(dbs, d)| == |dbs|
      && exists i :: 0 <= i < |dbs| && dbs[i].id == d.id && Saved(dbs, d)[i] == d
           && (forall j :: 0 <= j < i ==> dbs[j].id != d.id)
           && (forall j :: 0 <= j < |dbs| && j != i ==> Saved(dbs, d)[j] == dbs[j])
    ensures (forall i :: 0 <= i < |dbs| ==> dbs[i].id != d.id) ==> Saved(dbs, d) == dbs + [d]
  {
    var idx := IndexById(dbs, d.id);
    if idx.Some? {
      var i := idx.value;
      assert Saved(dbs, d)[i] == d;
    }
  }

  /** After `saveDatabase(d)`, `getDatabase(d.id)` returns `d`. */
  lemma SaveThenGet(dbs: seq<Database>, d: Database)
    ensures Lookup(Saved(dbs, d), d.id) == Some(d)
  {
    var s := Saved(dbs, d);
    match IndexById(dbs, d.id)
    case Some(i) =>
      assert s[i] == d;
      assert forall j :: 0 <= j < i ==> s[j] == dbs[j];
      LookupFirst(s, d.id);
    case None =>
      assert s[|dbs|] == d;
      assert forall j :: 0 <= j < |dbs| ==> s[j] == dbs[j];
      LookupFirst(s, d.id);
  }

  /** Saving a database never changes what a lookup of another id finds. */
  lemma SaveKeepsOthers(dbs: seq<Database>, d: Database, id: string)
    requires id != d.id
    ensures Lookup(Saved(dbs, d), id) == Lookup(dbs, id)
  {
    var s := Saved(dbs, d);
    assert forall j :: 0 <= j < |dbs| && dbs[j].id != d.id ==> s[j] == dbs[j];
    assert forall j :: 0 <= j < |s| && s[j].id == id ==> j < |dbs| && s[j] == dbs[j];
    LookupFirst(s, id);
    LookupFirst(dbs, id);
  }

  /** `deleteDatabase(id)` removes every entry with that id and keeps the
      others: an entry survives exactly when its id differs. */
  lemma {:induction false} DeleteFilters(dbs: seq<Database>, id: string)
    ensures forall d :: d in Deleted(dbs, id) <==> d in dbs && d.id != id
    ensures |Deleted(dbs, id)| <= |dbs|
  {
    if dbs != [] {
      DeleteFilters(dbs[1..], id);
      assert dbs == [dbs[0]] + dbs[1..];
    }
  }

  /** The survivors keep their order: deleting from a concatenation deletes
      from each part. */
  lemma {:induction false} DeleteKeepsOrder(a: seq<Database>, b: seq<Database>, id: string)
    ensures Deleted(a + b, id) == Deleted(a, id) + Deleted(b, id)
  {
    if a != [] {
      assert (a + b)[1..] == a[1..] + b;
      DeleteKeepsOrder(a[1..], b, id);
    } else {
      assert a + b == b;
    }
  }

  /** After `deleteDatabase(id)`, `getDatabase(id)` is null. */
  lemma DeleteThenGet(dbs: seq<Database>, id: string)
    ensures Lookup(Deleted(dbs, id), id) == None
  {
    DeleteFilters(dbs, id);
    LookupFirst(Deleted(dbs, id), id);
  }

  /** `updateItem` changes nothing when no database has the id, or when no
      item of that database has NUMERO exactly equal to `itemNumero`. */
  lemma UpdateNoOp(dbs: seq<Database>, databaseId: string, itemNumero: string, updates: Item)
    requires Lookup(dbs, databaseId).None?
      || forall k :: 0 <= k < |Lookup(dbs, databaseId).value.items| ==>
           !HasNumero(Lookup(dbs, databaseId).value.items[k], itemNumero)
    ensures Updated(dbs, databaseId, itemNumero, updates) == dbs
  {
  }

  /** Otherwise `updateItem` changes only the first matching item of the
      first database with that id: keys of `updates` overwrite, other keys
      are kept; every other item and every other database is unchanged. */
  lemma UpdateChangesOneItem(dbs: seq<Database>, databaseId: string, itemNumero: string, updates: Item,
                             i: nat, k: nat)
    requires i < |dbs| && dbs[i].id == databaseId && forall j :: 0 <= j < i ==> dbs[j].id != databaseId
    requires k < |dbs[i].items| && HasNumero(dbs[i].items[k], itemNumero)
    requires forall j :: 0 <= j < k ==> !HasNumero(dbs[i].items[j], itemNumero)
    ensures var r := Updated(dbs, databaseId, itemNumero, updates);
      && |r| == |dbs|
      && (forall j :: 0 <= j < |dbs| && j != i ==> r[j] == dbs[j])
      && r[i] == dbs[i].(items := r[i].items)
      && |r[i].items| == |dbs[i].items|
      && (forall j :: 0 <= j < |dbs[i].items| && j != k ==> r[i].items[j] == dbs[i].items[j])
      && r[i].items[k].Keys == dbs[i].items[k].Keys + updates.Keys
      && (forall key :: key in updates ==> r[i].items[k][key] == updates[key])
      && (forall key :: key in dbs[i].items[k] && key !in updates ==> r[i].items[k][key] == dbs[i].items[k][key])
  {
    LookupFirst(dbs, databaseId);
    var db := dbs[i];
    var db' := db.(items := db.items[k := Merge(db.items[k], updates)]);
    assert IndexById(dbs, databaseId) == Some(i);
    assert Updated(dbs, databaseId, itemNumero, updates) == Saved(dbs, db');
  }
}
