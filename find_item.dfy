/**
 * `findItemByNumero` of src/services/findItem.ts: look up an item by its
 * number in the saved bases, either in one base chosen by id or in all of
 * them, comparing trimmed lower-cased keys. The list read from browser
 * storage is a parameter here.
 */
module FindItem {
  import opened Text
  import opened Inventory

  /** A saved base: its id, its name, and `json.rows` when that is an
      array (`None` otherwise). */
  datatype Base = Base(id: string, name: string, rows: Option<seq<Item>>)

  /** The keys a row's number may sit under, in the order they are tried. */
  const RowKeys: seq<string> := ["NUMERO", "Numero", "numero", "id", "ID"]

  /** `row.NUMERO || row.Numero || row.numero || row.id || row.ID || ''`:
      the first of `keys` under which the row holds a non-empty text. */
  function KeyFrom(row: Item, keys: seq<string>): string {
    if keys == [] then ""
    else if keys[0] in row && row[keys[0]] != "" then row[keys[0]]
    else KeyFrom(row, keys[1..])
  }

  /** The key is "" exactly when every one of `keys` is missing or empty;
      otherwise it is the text under the first key that holds a non-empty
      one. */
  lemma {:induction false} KeyFromFirst(row: Item, keys: seq<string>)
    ensures KeyFrom(row, keys) == "" <==> forall i :: 0 <= i < |keys| ==> keys[i] !in row || row[keys[i]] == ""
    ensures KeyFrom(row, keys) != "" ==>
      exists i :: 0 <= i < |keys| && keys[i] in row && row[keys[i]] == KeyFrom(row, keys)
        && forall j :: 0 <= j < i ==> keys[j] !in row || row[keys[j]] == ""
    decreases |keys|
  {
    if keys != [] && !(keys[0] in row && row[keys[0]] != "") {
      KeyFromFirst(row, keys[1..]);
      var r := KeyFrom(row, keys[1..]);
      assert forall i :: 1 <= i < |keys| ==> keys[i] == keys[1..][i - 1];
      if r != "" {
        var i :| 0 <= i < |keys| - 1 && keys[1..][i] in row && row[keys[1..][i]] == r
                 && forall j :: 0 <= j < i ==> keys[1..][j] !in row || row[keys[1..][j]] == "";
        assert keys[i + 1] == keys[1..][i];
      }
    }
  }

  function RowKey(row: Item): string {
    KeyFrom(row, RowKeys)
  }

  /** `String(s).trim().toLowerCase()`. */
  function Normal(s: string): string {
    Lower(Trim(s))
  }

  /** The predicate of `rows.find`. */
  predicate Matches(row: Item, target: string) {
    Normal(RowKey(row)) == target
  }

  /** `rows.find(...)`: the first matching row. */
  function FirstRow(rows: seq<Item>, target: string): Option<Item> {
    if rows == [] then None
    else if Matches(rows[0], target) then Some(rows[0])
    else FirstRow(rows[1..], target)
  }

  /** `find` returns a row exactly when one matches, and then the first
      matching row. */
  lemma {:induction false} FirstRowFirst(rows: seq<Item>, target: string)
    ensures FirstRow(rows, target).Some? ==>
      exists j :: 0 <= j < |rows| && rows[j] == FirstRow(rows, target).value
        && Matches(rows[j], target) && forall k :: 0 <= k < j ==> !Matches(rows[k], target)
    ensures FirstRow(rows, target).None? <==> forall j :: 0 <= j < |rows| ==> !Matches(rows[j], target)
    decreases |rows|
  {
    if rows != [] && !Matches(rows[0], target) {
      FirstRowFirst(rows[1..], target);
      var r := FirstRow(rows[1..], target);
      assert forall j :: 1 <= j < |rows| ==> rows[j] == rows[1..][j - 1];
      if r.Some? {
        var j :| 0 <= j < |rows| - 1 && rows[1..][j] == r.value && Matches(rows[1..][j], target)
                 && forall k :: 0 <= k < j ==> !Matches(rows[1..][k], target);
        assert rows[j + 1] == rows[1..][j];
      }
    }
  }

  /** `allBases.find(b => b.id === dbId)`: the index of the first base with
      that id. */
  function BaseIndex(bases: seq<Base>, id: string): (r: Option<nat>)
    ensures r.Some? ==> r.value < |bases| && bases[r.value].id == id
                          && forall j :: 0 <= j < r.value ==> bases[j].id != id
    ensures r.None? ==> forall j :: 0 <= j < |bases| ==> bases[j].id != id
  {
    if bases == [] then None
    else if bases[0].id == id then Some(0)
    else match BaseIndex(bases[1..], id)
      case None => None
      case Some(i) => Some(i + 1)
  }

  /** `targetBases`: the first base with id `dbId` when `dbId` is a
      non-empty text naming one, every base otherwise. */
  function Scope(dbId: Option<string>, bases: seq<Base>): seq<Base> {
    if dbId.Some? && dbId.value != "" then
      match BaseIndex(bases, dbId.value)
      case Some(i) => [bases[i]]
      case None => bases
    else bases
  }

  /** The first matching row of the first base in `bases` that has one;
      bases without a rows array are passed over. */
  function Search(bases: seq<Base>, target: string): Option<Item> {
    if bases == [] then None
    else if bases[0].rows.Some? && FirstRow(bases[0].rows.value, target).Some? then
      FirstRow(bases[0].rows.value, target)
    else Search(bases[1..], target)
  }

  /** `findItemByNumero(dbId, numeroSearch)` over the saved bases `bases`. */
  function Lookup(dbId: Option<string>, query: string, bases: seq<Base>): Option<Item> {
    if query == "" then None
    else Search(Scope(dbId, bases), Normal(query))
  }

  /** `findItemByNumero`: the scope is chosen, then the bases are searched
      in order and the first row found is returned at once. */
  method FindItemByNumero(dbId: Option<string>, numeroSearch: string, allBases: seq<Base>) returns (found: Option<Item>)
    ensures found == Lookup(dbId, numeroSearch, allBases)
  {
    if numeroSearch == "" {
      return None;
    }
    if |allBases| == 0 {
      return None;
    }
    var targetBases := allBases;
    if dbId.Some? && dbId.value != "" {
      var specificBase := BaseIndex(allBases, dbId.value);
      if specificBase.Some? {
        targetBases := [allBases[specificBase.value]];
      }
    }
    var target := Normal(numeroSearch);
    var i := 0;
    while i < |targetBases|
      invariant 0 <= i <= |targetBases|
      invariant Search(targetBases, target) == Search(targetBases[i..], target)
    {
      assert targetBases[i..][1..] == targetBases[i + 1..];
      var base := targetBases[i];
      if base.rows.Some? {
        var row := FirstRow(base.rows.value, target);
        if row.Some? {
          return row;
        }
      }
      i := i + 1;
    }
    return None;
  }

  // ---------------------------------------------------------------------
  // What the lookup promises
  // ---------------------------------------------------------------------

  /** The rows of every base that has a rows array, base after base. */
  function AllRows(bases: seq<Base>): seq<Item> {
    if bases == [] then []
    else (if bases[0].rows.Some? then bases[0].rows.value else []) + AllRows(bases[1..])
  }

  /** `find` over two lists in a row: the first list's match if it has
      one, the second's otherwise. */
  lemma {:induction false} FirstRowAppend(a: seq<Item>, b: seq<Item>, target: string)
    ensures FirstRow(a + b, target) ==
      (if FirstRow(a, target).Some? then FirstRow(a, target) else FirstRow(b, target))
    decreases |a|
  {
    if a != [] {
      assert (a + b)[1..] == a[1..] + b;
      FirstRowAppend(a[1..], b, target);
    } else {
      assert a + b == b;
    }
  }

  /** Searching base after base and stopping at the first base with a match
      finds the same row as one `find` over all the rows in order; with
      FirstRowFirst, the row found is the first matching row of the
      first base that has one, and nothing is found exactly when no row of
      any base in scope matches. */
  lemma {:induction false} SearchIsFirstOfAll(bases: seq<Base>, target: string)
    ensures Search(bases, target) == FirstRow(AllRows(bases), target)
    decreases |bases|
  {
    if bases != [] {
      SearchIsFirstOfAll(bases[1..], target);
      var head := if bases[0].rows.Some? then bases[0].rows.value else [];
      FirstRowAppend(head, AllRows(bases[1..]), target);
    }
  }

  /** The scope: one base when `dbId` names a stored base (the first with
      that id), every base when `dbId` is null, empty or unknown. */
  lemma ScopeRule(dbId: Option<string>, bases: seq<Base>)
    ensures (dbId.Some? && dbId.value != "" && exists i :: 0 <= i < |bases| && bases[i].id == dbId.value) ==>
      |Scope(dbId, bases)| == 1 && Scope(dbId, bases)[0].id == dbId.value
      && Scope(dbId, bases)[0] in bases
    ensures (dbId.None? || dbId.value == "" || forall i :: 0 <= i < |bases| ==> bases[i].id != dbId.value) ==>
      Scope(dbId, bases) == bases
  {
  }

  /** An empty query or an empty list of bases finds nothing. */
  lemma NothingToSearch(dbId: Option<string>, query: string, bases: seq<Base>)
    requires query == "" || bases == []
    ensures Lookup(dbId, query, bases) == None
  {
  }

  /** Case and surrounding white space do not matter: a row matches when
      its key, trimmed and lower-cased, equals the query trimmed and
      lower-cased. A query of white space only becomes "" and matches a row
      whose keys are all missing, empty or white space. */
  lemma BlankQueryMatchesBlankKey(row: Item, query: string)
    requires query != "" && AllSpace(query)
    ensures Normal(query) == ""
    ensures Matches(row, Normal(query)) <==> AllSpace(RowKey(row))
  {
    TrimProperties(query);
    TrimProperties(RowKey(row));
  }
}
