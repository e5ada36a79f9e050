/**
 * The room list of `loadRoomsFromBase` in src/pages/RoomsPage.tsx: pick
 * the column that holds the room, then gather its distinct non-blank
 * values. The base's `json.headers` and `json.rows` (`[]` when absent) are
 * the inputs.
 */
module RoomsPage {
  import opened Text
  import opened Inventory
  import opened RoomSelection

  /** Header names taken as the room column when they match exactly. */
  const Candidates: seq<string> :=
    ["sala", "local", "room", "localizacao", "localização", "sala_nome", "ambiente", "setor"]

  /** `String(h).toLowerCase().trim()`. */
  function LowerHeader(h: string): string {
    Trim(Lower(h))
  }

  predicate IsCandidate(h: string) {
    LowerHeader(h) in Candidates
  }

  predicate LooksLikeRoom(h: string) {
    var l := LowerHeader(h);
    Contains(l, "sala") || Contains(l, "local") || Contains(l, "room")
  }

  /** `findIndex`: the first position whose header satisfies `p`. */
  function FindIndex(headers: seq<string>, p: string -> bool): (r: Option<nat>)
    ensures r.Some? ==> r.value < |headers| && p(headers[r.value])
                          && forall j :: 0 <= j < r.value ==> !p(headers[j])
    ensures r.None? ==> forall j :: 0 <= j < |headers| ==> !p(headers[j])
  {
    if headers == [] then None
    else if p(headers[0]) then Some(0)
    else match FindIndex(headers[1..], p)
      case None => None
      case Some(i) => Some(i + 1)
  }

  /** `idx`: the first exact candidate, else the first header that contains
      "sala", "local" or "room", else 0; `None` when there are no headers
      (the page stops with an alert). */
  function RoomColumn(headers: seq<string>): (r: Option<nat>)
    ensures r.None? <==> headers == []
    ensures r.Some? ==> r.value < |headers|
  {
    if headers == [] then None
    else match FindIndex(headers, IsCandidate)
      case Some(i) => Some(i)
      case None =>
        match FindIndex(headers, LooksLikeRoom)
        case Some(i) => Some(i)
        case None => Some(0)
  }

  /** The column rule, phase by phase: an exact candidate anywhere wins over
      any header matched by a substring, even an earlier one. */
  lemma ColumnRule(headers: seq<string>)
    ensures RoomColumn(headers).None? <==> headers == []
    ensures RoomColumn(headers).Some? ==> RoomColumn(headers).value < |headers|
    ensures (exists i :: 0 <= i < |headers| && IsCandidate(headers[i])) ==>
      var c := RoomColumn(headers).value;
      IsCandidate(headers[c]) && forall j :: 0 <= j < c ==> !IsCandidate(headers[j])
    ensures (forall i :: 0 <= i < |headers| ==> !IsCandidate(headers[i])) && (exists i :: 0 <= i < |headers| && LooksLikeRoom(headers[i])) ==>
      var c := RoomColumn(headers).value;
      LooksLikeRoom(headers[c]) && forall j :: 0 <= j < c ==> !LooksLikeRoom(headers[j])
    ensures headers != [] && (forall i :: 0 <= i < |headers| ==> !IsCandidate(headers[i]) && !LooksLikeRoom(headers[i])) ==>
      RoomColumn(headers) == Some(0)
  {
  }

  /** A header of lower-case ASCII letters and underscores is its own
      lowered, trimmed form. */
  lemma PlainHeader(h: string)
    requires forall k :: 0 <= k < |h| ==> 'a' <= h[k] <= 'z' || h[k] == '_'
    ensures LowerHeader(h) == h
  {
    assert Lower(h) == h;
    TrimOfTrimmed(h);
  }

  /** An exact candidate wins over an earlier header that only contains
      "local": ["localidade", "sala"] picks "sala". */
  lemma ExactBeatsSubstring()
    ensures RoomColumn(["localidade", "sala"]) == Some(1)
  {
    var headers := ["localidade", "sala"];
    PlainHeader(headers[0]);
    PlainHeader(headers[1]);
    assert !IsCandidate(headers[0]);
    assert IsCandidate(headers[1]);
  }

  /** A value kept for the room list: present in the row under the room
      column, and not blank once trimmed. */
  predicate Kept(row: Item, column: string) {
    column in row && Trim(row[column]) != ""
  }

  /** `arr`: the trimmed values kept, in row order. */
  function Values(rows: seq<Item>, column: string): seq<string> {
    if rows == [] then []
    else
      var last := rows[|rows| - 1];
      Values(rows[..|rows| - 1], column) + (if Kept(last, column) then [Trim(last[column])] else [])
  }

  /** A text is among the values exactly when some row keeps it. */
  lemma {:induction false} ValuesMembers(rows: seq<Item>, column: string)
    ensures forall s :: s in Values(rows, column) <==>
      exists k :: 0 <= k < |rows| && Kept(rows[k], column) && s == Trim(rows[k][column])
    decreases |rows|
  {
    if rows != [] {
      var init := rows[..|rows| - 1];
      ValuesMembers(init, column);
      assert forall k :: 0 <= k < |init| ==> init[k] == rows[k];
    }
  }

  /** The room column's name, when there are headers. */
  function RoomColumnName(headers: seq<string>): string
    requires headers != []
  {
    headers[RoomColumn(headers).value]
  }

  /** `loadRoomsFromBase`, up to the sort: the values of the room column,
      read under the original header name, trimmed, blank ones dropped, then
      made distinct. `None` when there are no headers. */
  method LoadRooms(headers: seq<string>, rows: seq<Item>) returns (rooms: Option<seq<string>>)
    ensures rooms.None? <==> headers == []
    ensures rooms.Some? ==> NoDup(rooms.value)
    ensures rooms.Some? ==> forall s :: s in rooms.value <==> s in Values(rows, RoomColumnName(headers))
  {
    if |headers| == 0 {
      return None;
    }
    var idx := RoomColumn(headers).value;
    var roomCol := headers[idx];
    var arr: seq<string> := [];
    for i := 0 to |rows|
      invariant arr == Values(rows[..i], roomCol)
    {
      assert rows[..i + 1][..i] == rows[..i];
      if roomCol in rows[i] {
        var s := Trim(rows[i][roomCol]);
        if s != "" {
          arr := arr + [s];
        }
      }
    }
    assert rows[..|rows|] == rows;
    var uniq := Distinct(arr);
    DistinctSpec(arr);
    return Some(uniq);
  }

  /** Every value kept is a non-empty text with no white space at its
      ends. */
  lemma {:induction false} ValuesTrimmed(rows: seq<Item>, column: string)
    ensures forall s :: s in Values(rows, column) ==> s != "" && IsTrimmed(s)
    decreases |rows|
  {
    if rows != [] {
      var last := rows[|rows| - 1];
      ValuesTrimmed(rows[..|rows| - 1], column);
      if column in last {
        TrimProperties(last[column]);
      }
    }
  }
}
