/**
 * The verification screen of src/components/ItemForm.tsx: search an item of
 * the base by its number, mark it found in the room being checked or
 * migrated from another one, and write every field edit straight to the
 * store. The component's state becomes the fields of `ItemForm`; the
 * decisions it takes are the functions before the class.
 */
module ItemFormModel {
  import opened Text
  import opened Inventory
  import opened Storage

  /** The text every generated migration note starts with. */
  const LocatedPrefix: string := "Localizado na sala"

  /** The item is in the room being checked: `item.SALA === selectedRoom`. */
  predicate InRoom(item: Item, room: string) {
    SALA in item && item[SALA] == room
  }

  /** `newStatus`. */
  function NewStatus(item: Item, room: string): string {
    if InRoom(item, room) then "Localizado" else "Migrado"
  }

  /** `newObservacao`: the item's own observation when it is in the room
      (`None` when it has none), the migration note otherwise. */
  function NewObservacao(item: Item, room: string): Option<string> {
    if InRoom(item, room) then
      if OBSERVACAO in item then Some(item[OBSERVACAO]) else None
    else Some(LocatedPrefix + " " + room)
  }

  /** The four fields a successful search writes. An observation that is
      `undefined` is not stored, so the key is left out then. */
  function Updates(item: Item, room: string): Item {
    var fixed := map[STATUS := NewStatus(item, room), ETIQUETADO := "Sim", ESTADO := "Bom"];
    match NewObservacao(item, room)
    case Some(o) => fixed[OBSERVACAO := o]
    case None => fixed
  }

  /** `if (freshData) setDatabaseData(freshData)`: the stored copy when
      there is one. */
  function Refreshed(freshData: Option<Database>, current: Database): Database {
    if freshData.Some? then freshData.value else current
  }

  /** `{ ...formData, [field]: value }`. */
  function WithField(formData: Item, field: string, value: string): Item {
    formData[field := value]
  }

  /** The observation a spoken observation leads to: appended after ". "
      when the form shows a migration whose observation is the generated
      note (or any text that starts like it), in place of the old one
      otherwise. */
  function MergeObservation(formData: Item, spoken: string): string {
    if STATUS in formData && formData[STATUS] == "Migrado"
       && OBSERVACAO in formData && StartsWith(formData[OBSERVACAO], LocatedPrefix)
    then formData[OBSERVACAO] + ". " + spoken
    else spoken
  }

  /** The state of one `ItemForm`: the base it checks, the room chosen, the
      copy of the base it searches, the item found and the form's fields. */
  class ItemForm {
    const databaseId: string
    const selectedRoom: string
    const store: InventoryStore
    var databaseData: Database
    var currentItem: Option<Item>
    var formData: Item

    /** An item shown in the form was found by its NUMERO. */
    predicate Valid()
      reads this
    {
      currentItem.Some? ==> NUMERO in currentItem.value
    }

    /** The first render: the base passed in, replaced by the stored copy
        when the store has one; no item, empty form. */
    constructor (database: Database, selectedRoom: string, store: InventoryStore)
      ensures Valid()
      ensures this.databaseId == database.id && this.selectedRoom == selectedRoom && this.store == store
      ensures databaseData == Refreshed(store.GetDatabase(database.id), database)
      ensures currentItem.None? && formData == map[]
    {
      this.databaseId := database.id;
      this.selectedRoom := selectedRoom;
      this.store := store;
      var freshData := store.GetDatabase(database.id);
      if freshData.Some? {
        this.databaseData := freshData.value;
      } else {
        this.databaseData := database;
      }
      this.currentItem := None;
      this.formData := map[];
    }

    /** Copy the stored base back into the form, when the store has it. */
    method Reload()
      modifies this
      ensures databaseData == Refreshed(store.GetDatabase(databaseId), old(databaseData))
      ensures currentItem == old(currentItem) && formData == old(formData)
    {
      var freshData := store.GetDatabase(databaseId);
      if freshData.Some? {
        databaseData := freshData.value;
      }
    }

    /** `searchItem(numero)`. */
    method SearchItem(numero: string)
      requires Valid()
      modifies this, store
      ensures Valid()
      ensures Trim(numero) == "" ==>
        && store.databases == old(store.databases)
        && databaseData == old(databaseData) && currentItem == old(currentItem) && formData == old(formData)
      ensures Trim(numero) != "" && IndexByNumero(old(databaseData).items, Trim(numero)).None? ==>
        && store.databases == old(store.databases)
        && databaseData == old(databaseData) && currentItem.None? && formData == map[]
      ensures Trim(numero) != "" && IndexByNumero(old(databaseData).items, Trim(numero)).Some? ==>
        var item := old(databaseData).items[IndexByNumero(old(databaseData).items, Trim(numero)).value];
        && currentItem == Some(item)
        && formData == Merge(item, Updates(item, selectedRoom))
        && store.databases == Updated(old(store.databases), databaseId, Trim(numero), Updates(item, selectedRoom))
        && databaseData == Refreshed(store.GetDatabase(databaseId), old(databaseData))
    {
      var q := Trim(numero);
      if q == "" {
        return;
      }
      var found := IndexByNumero(databaseData.items, q);
      if found.None? {
        currentItem := None;
        formData := map[];
        return;
      }
      var item := databaseData.items[found.value];
      currentItem := Some(item);
      var updates := Updates(item, selectedRoom);
      formData := Merge(item, updates);
      store.UpdateItem(databaseId, q, updates);
      Reload();
    }

    /** `handleFieldChange(field, value)`: nothing without an item; otherwise
        the form field and the stored item keyed by the item's NUMERO. */
    method HandleFieldChange(field: string, value: string)
      requires Valid()
      modifies this, store
      ensures Valid()
      ensures currentItem == old(currentItem)
      ensures old(currentItem).None? ==>
        store.databases == old(store.databases) && databaseData == old(databaseData) && formData == old(formData)
      ensures old(currentItem).Some? ==>
        && formData == WithField(old(formData), field, value)
        && store.databases == Updated(old(store.databases), databaseId, old(currentItem).value[NUMERO], map[field := value])
        && databaseData == Refreshed(store.GetDatabase(databaseId), old(databaseData))
    {
      if currentItem.None? {
        return;
      }
      formData := WithField(formData, field, value);
      store.UpdateItem(databaseId, currentItem.value[NUMERO], map[field := value]);
      Reload();
    }
  }

  // ---------------------------------------------------------------------
  // What the decisions promise
  // ---------------------------------------------------------------------

  /** The room rule: in the room checked the item is "Localizado" and keeps
      its observation; elsewhere it is "Migrado" and its observation becomes
      the note naming the room it was found in. Either way it is labelled
      and in good condition. */
  lemma RoomRule(item: Item, room: string)
    ensures Updates(item, room)[ETIQUETADO] == "Sim" && Updates(item, room)[ESTADO] == "Bom"
    ensures InRoom(item, room) ==>
      && Updates(item, room)[STATUS] == "Localizado"
      && (OBSERVACAO in Updates(item, room) <==> OBSERVACAO in item)
      && (OBSERVACAO in item ==> Updates(item, room)[OBSERVACAO] == item[OBSERVACAO])
    ensures !InRoom(item, room) ==>
      && Updates(item, room)[STATUS] == "Migrado"
      && OBSERVACAO in Updates(item, room)
      && Updates(item, room)[OBSERVACAO] == "Localizado na sala " + room
  {
    assert STATUS != ETIQUETADO && STATUS != ESTADO && ETIQUETADO != ESTADO;
    assert OBSERVACAO != STATUS && OBSERVACAO != ETIQUETADO && OBSERVACAO != ESTADO;
  }

  /** A search writes only STATUS, ETIQUETADO, ESTADO DE CONSERVAÇÃO and
      OBSERVAÇÃO: the item's NUMERO, DESCRIÇÃO, SALA and RECOMENDAÇÃO are
      what they were, present or absent. */
  lemma SearchKeepsIdentity(item: Item, room: string)
    ensures Updates(item, room).Keys <= {STATUS, ETIQUETADO, ESTADO, OBSERVACAO}
    ensures forall key :: key in [NUMERO, DESCRICAO, SALA, RECOMENDACAO] ==>
      (key in Merge(item, Updates(item, room)) <==> key in item)
      && (key in item ==> Merge(item, Updates(item, room))[key] == item[key])
  {
    assert NUMERO !in {STATUS, ETIQUETADO, ESTADO, OBSERVACAO};
    assert DESCRICAO !in {STATUS, ETIQUETADO, ESTADO, OBSERVACAO};
    assert SALA !in {STATUS, ETIQUETADO, ESTADO, OBSERVACAO};
    assert RECOMENDACAO !in {STATUS, ETIQUETADO, ESTADO, OBSERVACAO};
  }

  /** After a search that found the item in another room, a spoken
      observation is added after the migration note. */
  lemma MigratedKeepsNote(item: Item, room: string, spoken: string)
    requires !InRoom(item, room)
    ensures MergeObservation(Merge(item, Updates(item, room)), spoken)
            == "Localizado na sala " + room + ". " + spoken
  {
    RoomRule(item, room);
    var f := Merge(item, Updates(item, room));
    assert f[OBSERVACAO][..|LocatedPrefix|] == LocatedPrefix;
  }

  /** After a search that found the item in its room, a spoken observation
      replaces the observation. */
  lemma LocatedTakesSpoken(item: Item, room: string, spoken: string)
    requires InRoom(item, room)
    ensures MergeObservation(Merge(item, Updates(item, room)), spoken) == spoken
  {
    RoomRule(item, room);
  }

  /** The merge appends exactly when the form shows a migration whose
      observation starts with the note's prefix. */
  lemma MergeRule(formData: Item, spoken: string)
    ensures MergeObservation(formData, spoken) != spoken ==>
      STATUS in formData && formData[STATUS] == "Migrado" && OBSERVACAO in formData
    ensures MergeObservation(formData, spoken) == spoken
      || MergeObservation(formData, spoken) == formData[OBSERVACAO] + ". " + spoken
    ensures |MergeObservation(formData, spoken)| >= |spoken|
  {
  }
}
