/**
 * The room list of src/components/RoomSelection.tsx: every distinct SALA
 * of the base's items once, in the default order of `Array.prototype.sort`
 * (UTF-16 code units compared one by one), and the items of one room.
 */
module RoomSelection {
  import opened Inventory

  // ---------------------------------------------------------------------
  // Distinct values, in order of first occurrence (`Array.from(new Set(s))`)
  // ---------------------------------------------------------------------

  /** No value occurs twice. */
  predicate NoDup<T(==)>(s: seq<T>) {
    forall i, j :: 0 <= i < j < |s| ==> s[i] != s[j]
  }

  /** `Array.from(new Set(s))`: a `Set` keeps its values in order of first
      insertion. */
  function Distinct<T(==)>(s: seq<T>): seq<T> {
    if s == [] then []
    else
      var d := Distinct(s[..|s| - 1]);
      if s[|s| - 1] in d then d else d + [s[|s| - 1]]
  }

  /** The set holds each value of `s` exactly once, and nothing else; it is
      empty only when `s` is. */
  lemma {:induction false} DistinctSpec<T>(s: seq<T>)
    ensures NoDup(Distinct(s))
    ensures forall x :: x in Distinct(s) <==> x in s
    ensures Distinct(s) == [] <==> s == []
    decreases |s|
  {
    if s != [] {
      var init := s[..|s| - 1];
      DistinctSpec(init);
      assert s == init + [s[|s| - 1]];
    }
  }

  // ---------------------------------------------------------------------
  // The default sort order: UTF-16 code units
  // ---------------------------------------------------------------------

  /** The UTF-16 code units of one character: itself below U+10000, a
      surrogate pair above. */
  function Units(c: char): (r: seq<int>)
    ensures 1 <= |r| <= 2
    ensures forall k :: 0 <= k < |r| ==> 0 <= r[k] < 0x1_0000
  {
    if c as int < 0x1_0000 then [c as int]
    else
      var v := c as int - 0x1_0000;
      [0xD800 + v / 0x400, 0xDC00 + v % 0x400]
  }

  /** The UTF-16 code units of a string. */
  function CodeUnits(s: string): seq<int> {
    if s == [] then [] else Units(s[0]) + CodeUnits(s[1..])
  }

  /** Lexicographic order on code-unit sequences; a prefix comes first. */
  predicate LexLeq(a: seq<int>, b: seq<int>) {
    a == [] || (b != [] && (a[0] < b[0] || (a[0] == b[0] && LexLeq(a[1..], b[1..]))))
  }

  /** Any two code-unit sequences are ordered one way or the other. */
  lemma {:induction false} LexTotal(a: seq<int>, b: seq<int>)
    ensures LexLeq(a, b) || LexLeq(b, a)
    decreases |a|
  {
    if a != [] && b != [] && a[0] == b[0] {
      LexTotal(a[1..], b[1..]);
    }
  }

  /** The comparison of the default `sort`. */
  predicate Before(a: string, b: string) {
    LexLeq(CodeUnits(a), CodeUnits(b))
  }

  /** Each string is at or before its successor. */
  predicate Sorted(s: seq<string>) {
    forall i :: 0 < i < |s| ==> Before(s[i - 1], s[i])
  }

  /** `x` placed before the first element it is at or before. */
  function Insert(x: string, s: seq<string>): seq<string> {
    if s == [] || Before(x, s[0]) then [x] + s
    else [s[0]] + Insert(x, s[1..])
  }

  /** The default `sort` of an array of strings. */
  function Sort(s: seq<string>): seq<string> {
    if s == [] then [] else Insert(s[0], Sort(s[1..]))
  }

  /** A string at or before the head of a sorted list extends it. */
  lemma SortedCons(a: string, r: seq<string>)
    requires Sorted(r)
    requires r != [] ==> Before(a, r[0])
    ensures Sorted([a] + r)
  {
    forall i | 0 < i < |r| + 1 ensures Before(([a] + r)[i - 1], ([a] + r)[i]) {
      if i > 1 {
        assert ([a] + r)[i - 1] == r[i - 2] && ([a] + r)[i] == r[i - 1];
      }
    }
  }

  /** Insertion adds `x` once and keeps every other value; the new head is
      `x` or the old head. */
  lemma {:induction false} InsertPermutes(x: string, s: seq<string>)
    ensures multiset(Insert(x, s)) == multiset(s) + multiset{x}
    ensures Insert(x, s)[0] == x || (s != [] && Insert(x, s)[0] == s[0])
    decreases |s|
  {
    if s != [] && !Before(x, s[0]) {
      InsertPermutes(x, s[1..]);
      assert s == [s[0]] + s[1..];
    }
  }

  /** Insertion into a sorted list keeps it sorted. */
  lemma {:induction false} InsertSorted(x: string, s: seq<string>)
    requires Sorted(s)
    ensures Sorted(Insert(x, s))
    decreases |s|
  {
    if s == [] || Before(x, s[0]) {
      SortedCons(x, s);
    } else {
      var t := s[1..];
      assert Sorted(t);
      InsertSorted(x, t);
      InsertPermutes(x, t);
      LexTotal(CodeUnits(x), CodeUnits(s[0]));
      assert t != [] ==> Before(s[0], t[0]) by {
        if t != [] {
          assert s[1] == t[0];
        }
      }
      SortedCons(s[0], Insert(x, t));
    }
  }

  /** The sort is sorted and a permutation of its input. */
  lemma {:induction false} SortSpec(s: seq<string>)
    ensures Sorted(Sort(s))
    ensures multiset(Sort(s)) == multiset(s)
    decreases |s|
  {
    if s != [] {
      SortSpec(s[1..]);
      InsertSorted(s[0], Sort(s[1..]));
      InsertPermutes(s[0], Sort(s[1..]));
      assert s == [s[0]] + s[1..];
    }
  }

  /** A permutation of a list without duplicates has none either. */
  lemma PermutationNoDup(s: seq<string>, t: seq<string>)
    requires multiset(s) == multiset(t)
    requires NoDup(s)
    ensures NoDup(t)
  {
    forall i, j | 0 <= i < j < |t| ensures t[i] != t[j] {
      if t[i] == t[j] {
        var x := t[i];
        assert t == t[..i] + [x] + t[i + 1..j] + [x] + t[j + 1..];
        assert multiset(t)[x] >= 2;
        CountOne(s, x);
      }
    }
  }

  /** Without duplicates, a value occurs at most once. */
  lemma {:induction false} CountOne(s: seq<string>, x: string)
    requires NoDup(s)
    ensures multiset(s)[x] <= 1
    decreases |s|
  {
    if s != [] {
      assert s == [s[0]] + s[1..];
      assert NoDup(s[1..]);
      CountOne(s[1..], x);
      if s[0] == x {
        assert x !in s[1..];
      }
    }
  }

  // ---------------------------------------------------------------------
  // The rooms of a base
  // ---------------------------------------------------------------------

  /** The SALA of every item, in item order; the item type declares SALA a
      text, so every item has one. */
  function Salas(items: seq<Item>): (r: seq<string>)
    requires forall k :: 0 <= k < |items| ==> SALA in items[k]
    ensures |r| == |items|
    ensures forall k :: 0 <= k < |items| ==> r[k] == items[k][SALA]
  {
    seq(|items|, k requires 0 <= k < |items| => items[k][SALA])
  }

  /** `rooms`: the distinct SALA values, sorted. */
  function Rooms(items: seq<Item>): seq<string>
    requires forall k :: 0 <= k < |items| ==> SALA in items[k]
  {
    Sort(Distinct(Salas(items)))
  }

  /** The room list is sorted, holds every item's room exactly once and no
      other text, and is empty exactly when there are no items. */
  lemma RoomsSpec(items: seq<Item>)
    requires forall k :: 0 <= k < |items| ==> SALA in items[k]
    ensures Sorted(Rooms(items))
    ensures NoDup(Rooms(items))
    ensures forall room :: room in Rooms(items) <==> exists k :: 0 <= k < |items| && items[k][SALA] == room
    ensures Rooms(items) == [] <==> items == []
  {
    var salas := Salas(items);
    var d := Distinct(salas);
    DistinctSpec(salas);
    SortSpec(d);
    PermutationNoDup(d, Rooms(items));
    forall room ensures room in Rooms(items) <==> exists k :: 0 <= k < |items| && items[k][SALA] == room {
      calc {
        room in Rooms(items);
        room in multiset(Rooms(items));
        room in multiset(d);
        room in d;
        room in salas;
      }
      if room in salas {
        var k :| 0 <= k < |salas| && salas[k] == room;
        assert items[k][SALA] == room;
      }
    }
    assert |Rooms(items)| == |d| by {
      assert |multiset(Rooms(items))| == |multiset(d)|;
    }
  }

  /** `getRoomItems(room)`: the items of one room, in item order. */
  function RoomItems(items: seq<Item>, room: string): seq<Item> {
    if items == [] then []
    else (if SALA in items[0] && items[0][SALA] == room then [items[0]] else []) + RoomItems(items[1..], room)
  }

  /** An item is listed for a room exactly when it is one of the items and
      its SALA is that room. */
  lemma {:induction false} RoomItemsExact(items: seq<Item>, room: string)
    ensures forall it :: it in RoomItems(items, room) <==> it in items && SALA in it && it[SALA] == room
    decreases |items|
  {
    if items != [] {
      RoomItemsExact(items[1..], room);
      assert items == [items[0]] + items[1..];
    }
  }

  /** The filter keeps the item order: the items of a room in two runs of
      items are those of the first run followed by those of the second. */
  lemma {:induction false} RoomItemsAppend(a: seq<Item>, b: seq<Item>, room: string)
    ensures RoomItems(a + b, room) == RoomItems(a, room) + RoomItems(b, room)
    decreases |a|
  {
    if a == [] {
      assert a + b == b;
    } else {
      assert (a + b)[1..] == a[1..] + b;
      RoomItemsAppend(a[1..], b, room);
    }
  }

  /** The item counts shown on the room cards, added up. */
  function CountSum(items: seq<Item>, rooms: seq<string>): nat {
    if rooms == [] then 0 else |RoomItems(items, rooms[0])| + CountSum(items, rooms[1..])
  }

  /** Every item falls in the room list exactly once: the card counts add
      up to the number of items. */
  lemma CountsAddUp(items: seq<Item>)
    requires forall k :: 0 <= k < |items| ==> SALA in items[k]
    ensures CountSum(items, Rooms(items)) == |items|
  {
    RoomsSpec(items);
    CountsOver(items, Rooms(items));
  }

  /** The counts over a duplicate-free list of rooms that holds every
      item's room add up to the number of items. */
  lemma {:induction false} CountsOver(items: seq<Item>, rooms: seq<string>)
    requires forall k :: 0 <= k < |items| ==> SALA in items[k] && items[k][SALA] in rooms
    requires NoDup(rooms)
    ensures CountSum(items, rooms) == |items|
    decreases |items|
  {
    if items != [] {
      assert forall k :: 1 <= k < |items| ==> items[1..][k - 1] == items[k];
      CountsOver(items[1..], rooms);
      CountSumCons(items, rooms);
      CountOne(rooms, items[0][SALA]);
      assert items[0][SALA] in multiset(rooms);
    } else {
      NoItemsNoCounts(rooms);
    }
  }

  /** Without items every room counts zero. */
  lemma {:induction false} NoItemsNoCounts(rooms: seq<string>)
    ensures CountSum([], rooms) == 0
    decreases |rooms|
  {
    if rooms != [] {
      NoItemsNoCounts(rooms[1..]);
    }
  }

  /** Moving the first item out of the counts: it adds one for each time
      its room is listed. */
  lemma {:induction false} CountSumCons(items: seq<Item>, rooms: seq<string>)
    requires items != [] && SALA in items[0]
    ensures CountSum(items, rooms) == CountSum(items[1..], rooms) + multiset(rooms)[items[0][SALA]]
    decreases |rooms|
  {
    if rooms != [] {
      CountSumCons(items, rooms[1..]);
      assert rooms == [rooms[0]] + rooms[1..];
    }
  }
}
