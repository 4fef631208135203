/** The text the engine renders from the world: the inventory sentence
    (`show_inventory`) and the lines `display_location` prints. */
module Render {
  import opened Text
  import opened World
  import opened Resolve

  /** Prefix each name with the article "a ". */
  function WithArticle(names: seq<string>): (r: seq<string>)
    ensures |r| == |names|
    ensures forall i :: 0 <= i < |names| ==> r[i] == "a " + names[i]
  {
    if names == [] then [] else ["a " + names[0]] + WithArticle(names[1..])
  }

  /** `show_inventory`. */
  function ShowInventory(reg: Registry, inventory: seq<string>): string
    requires forall id :: id in inventory ==> id in reg.items
  {
    var carried := ItemNames(inventory, reg.items);
    if |carried| == 0 then "You are not carrying anything."
    else if |carried| == 1 then "You are carrying a " + carried[0] + "."
    else
      var n := |carried|;
      "You are carrying " + Join(", ", WithArticle(carried[..n - 1])) + " and a " + carried[n - 1] + "."
  }

  /** The intended English list "a X, a Y and a Z": every name takes an
      article, commas between all but the last two, "and" before the last. */
  function ArticleList(names: seq<string>): string
    requires |names| >= 1
  {
    if |names| == 1 then "a " + names[0]
    else if |names| == 2 then "a " + names[0] + " and a " + names[1]
    else "a " + names[0] + ", " + ArticleList(names[1..])
  }

  lemma {:induction false} JoinedArticles(names: seq<string>)
    requires |names| >= 2
    ensures Join(", ", WithArticle(names[..|names| - 1])) + " and a " + names[|names| - 1]
         == ArticleList(names)
  {
    var n := |names|;
    if n > 2 {
      JoinedArticles(names[1..]);
      assert names[1..][..n - 2] == names[..n - 1][1..];
      assert WithArticle(names[..n - 1])[1..] == WithArticle(names[1..][..n - 2]);
    }
  }

  /** The inventory sentence is "nothing" for an empty inventory and lists
      every carried item, in inventory order, as "a X, a Y and a Z". */
  lemma InventorySentence(reg: Registry, inventory: seq<string>)
    requires forall id :: id in inventory ==> id in reg.items
    ensures inventory == [] ==> ShowInventory(reg, inventory) == "You are not carrying anything."
    ensures inventory != [] ==>
              ShowInventory(reg, inventory) ==
              "You are carrying " + ArticleList(ItemNames(inventory, reg.items)) + "."
  {
    var carried := ItemNames(inventory, reg.items);
    if |carried| >= 2 {
      JoinedArticles(carried);
    }
  }

  /** The names of the visible items among ids, in order. */
  function VisibleNames(ids: seq<string>, items: map<string, Item>): (r: seq<string>)
    requires forall id :: id in ids ==> id in items
    ensures |r| <= |ids|
    ensures r == [] <==> forall id :: id in ids ==> !items[id].visible
  {
    if ids == [] then []
    else if items[ids[0]].visible then [items[ids[0]].name] + VisibleNames(ids[1..], items)
    else VisibleNames(ids[1..], items)
  }

  /** Every listed name belongs to a visible id among ids, and every
      visible id's name is listed. */
  lemma {:induction false} VisibleNamesFilter(ids: seq<string>, items: map<string, Item>)
    requires forall id :: id in ids ==> id in items
    ensures forall name :: name in VisibleNames(ids, items) <==>
              exists id :: id in ids && items[id].visible && name == items[id].name
  {
    if ids != [] {
      VisibleNamesFilter(ids[1..], items);
      assert forall id :: id in ids <==> id == ids[0] || id in ids[1..];
    }
  }

  /** The filter keeps order: the visible names of a concatenation are
      those of the first part followed by those of the second. */
  lemma {:induction false} VisibleNamesAppend(a: seq<string>, b: seq<string>, items: map<string, Item>)
    requires forall id :: id in a + b ==> id in items
    ensures VisibleNames(a + b, items) == VisibleNames(a, items) + VisibleNames(b, items)
  {
    if a == [] {
      assert a + b == b;
    } else {
      assert (a + b)[0] == a[0] && (a + b)[1..] == a[1..] + b;
      VisibleNamesAppend(a[1..], b, items);
    }
  }

  /** A single id contributes its name exactly when it is visible. */
  lemma VisibleNamesOne(id: string, items: map<string, Item>)
    requires id in items
    ensures VisibleNames([id], items) == if items[id].visible then [items[id].name] else []
  {
    assert [id][1..] == [];
  }

  function CharacterLines(ids: seq<string>, characters: map<string, Character>): (r: seq<string>)
    requires forall id :: id in ids ==> id in characters
    ensures |r| == |ids|
    ensures forall i :: 0 <= i < |ids| ==> r[i] == "There is " + characters[ids[i]].name + " here."
  {
    if ids == [] then [] else ["There is " + characters[ids[0]].name + " here."] + CharacterLines(ids[1..], characters)
  }

  /** The list `display_location` builds for two or more visible items: the
      first name takes its article from the surrounding "You can see a", the
      middle ones get none, and the last one gets "and a". */
  function BareList(names: seq<string>): string
    requires |names| >= 2
  {
    if |names| == 2 then names[0] + " and a " + names[1]
    else names[0] + ", " + BareList(names[1..])
  }

  lemma {:induction false} JoinedBare(names: seq<string>)
    requires |names| >= 2
    ensures Join(", ", names[..|names| - 1]) + " and a " + names[|names| - 1] == BareList(names)
  {
    var n := |names|;
    if n > 2 {
      JoinedBare(names[1..]);
      assert names[1..][..n - 2] == names[..n - 1][1..];
    }
  }

  /** The line about visible items, if any. */
  function ItemsLine(visible: seq<string>): seq<string> {
    if visible == [] then []
    else if |visible| == 1 then ["You can see a " + visible[0] + " here."]
    else
      var n := |visible|;
      ["You can see a " + Join(", ", visible[..n - 1]) + " and a " + visible[n - 1] + " here."]
  }

  lemma TailOfConcat(a: seq<string>, b: seq<string>, c: seq<string>)
    ensures (a + b + c)[|a| + |b|..] == c
  {
  }

  /** The lines `display_location` prints for a room, one per `print` call. */
  function RoomView(reg: Registry, room: Location): seq<string>
    requires forall id :: id in room.items ==> id in reg.items
    requires forall c :: c in room.characters ==> c in reg.characters
  {
    var exitsLine :=
      if room.exits != [] then "Exits: " + Join(", ", Directions(room.exits))
      else "There are no obvious exits.";
    ["\n" + room.name, Repeat('-', |room.name|), room.description, exitsLine]
      + ItemsLine(VisibleNames(room.items, reg.items))
      + CharacterLines(room.characters, reg.characters)
  }

  /** `display_location`: the view of the player's current room. */
  function LocationView(reg: Registry, s: State): seq<string>
    requires Valid(reg, s)
  {
    var room := CurrentRoom(s);
    assert RoomValid(reg, s.locations.Keys, room);
    RoomView(reg, room)
  }

  /** The room view: header, the exits line (or the no-exits line), one line
      listing the visible items when there are any, then one line per
      character present, in the room's order. */
  lemma RoomViewLines(reg: Registry, room: Location)
    requires forall id :: id in room.items ==> id in reg.items
    requires forall c :: c in room.characters ==> c in reg.characters
    ensures var view := RoomView(reg, room);
            var visible := VisibleNames(room.items, reg.items);
            var extra := if visible == [] then 0 else 1;
            && |view| == 4 + extra + |room.characters|
            && view[0] == "\n" + room.name
            && view[1] == Repeat('-', |room.name|)
            && view[2] == room.description
            && (room.exits == [] ==> view[3] == "There are no obvious exits.")
            && (room.exits != [] ==> view[3] == "Exits: " + Join(", ", Directions(room.exits)))
            && (|visible| == 1 ==> view[4] == "You can see a " + visible[0] + " here.")
            && (|visible| >= 2 ==> view[4] == "You can see a " + BareList(visible) + " here.")
            && view[4 + extra..] == CharacterLines(room.characters, reg.characters)
  {
    var view := RoomView(reg, room);
    var visible := VisibleNames(room.items, reg.items);
    var exitsLine :=
      if room.exits != [] then "Exits: " + Join(", ", Directions(room.exits))
      else "There are no obvious exits.";
    var header := ["\n" + room.name, Repeat('-', |room.name|), room.description, exitsLine];
    var itemsLine := ItemsLine(visible);
    var people := CharacterLines(room.characters, reg.characters);
    assert view == header + itemsLine + people;
    assert |itemsLine| == if visible == [] then 0 else 1;
    TailOfConcat(header, itemsLine, people);
    if |visible| >= 2 {
      JoinedBare(visible);
    }
  }
}
