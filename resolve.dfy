/** Name resolution and the read-only lookups of the engine: the three-tier
    item resolver (`get_item_id_from_name`), `examine` and `talk_to`. All of
    them are first-match searches over ordered id lists. */
module Resolve {
  import opened Text
  import opened World

  /** Whole: the lowered name equals the lowered query.
      Partial: the lowered query is a substring of the lowered name. */
  datatype Mode = Whole | Partial

  predicate Matches(mode: Mode, name: string, query: string) {
    match mode
    case Whole => Lower(name) == Lower(query)
    case Partial => Contains(Lower(name), Lower(query))
  }

  /** A whole-name match is always a partial match too. */
  lemma WholeIsPartial(name: string, query: string)
    requires Matches(Whole, name, query)
    ensures Matches(Partial, name, query)
  {
    ContainsSelf(Lower(name));
  }

  /** k is the first position of names that matches query. */
  ghost predicate FirstAt(names: seq<string>, query: string, mode: Mode, k: int) {
    && 0 <= k < |names|
    && Matches(mode, names[k], query)
    && forall j :: 0 <= j < k ==> !Matches(mode, names[j], query)
  }

  ghost predicate NoMatch(names: seq<string>, query: string, mode: Mode) {
    forall i :: 0 <= i < |names| ==> !Matches(mode, names[i], query)
  }

  /** A `for` loop with an early `return` on the first match. */
  function FirstMatch(names: seq<string>, query: string, mode: Mode): (r: Option<nat>)
    ensures r.None? <==> NoMatch(names, query, mode)
    ensures r.Some? ==> FirstAt(names, query, mode, r.value)
  {
    if names == [] then None
    else if Matches(mode, names[0], query) then Some(0)
    else match FirstMatch(names[1..], query, mode)
      case None =>
        assert forall i :: 1 <= i < |names| ==> names[i] == names[1..][i - 1];
        None
      case Some(k) =>
        assert forall j :: 1 <= j <= k ==> names[j] == names[1..][j - 1];
        Some(k + 1)
  }

  function ItemNames(ids: seq<string>, items: map<string, Item>): (r: seq<string>)
    requires forall id :: id in ids ==> id in items
    ensures |r| == |ids|
    ensures forall i :: 0 <= i < |ids| ==> r[i] == items[ids[i]].name
  {
    if ids == [] then [] else [items[ids[0]].name] + ItemNames(ids[1..], items)
  }

  function CharacterNames(ids: seq<string>, characters: map<string, Character>): (r: seq<string>)
    requires forall id :: id in ids ==> id in characters
    ensures |r| == |ids|
    ensures forall i :: 0 <= i < |ids| ==> r[i] == characters[ids[i]].name
  {
    if ids == [] then [] else [characters[ids[0]].name] + CharacterNames(ids[1..], characters)
  }

  /** `get_item_id_from_name`: an exact id wins; otherwise the first registry
      entry whose name equals the query ignoring case; otherwise the first
      whose name contains it ignoring case. The search covers the whole item
      registry, not just the current room. */
  function ResolveItem(reg: Registry, query: string): (r: Option<string>)
    requires RegistryValid(reg)
    ensures query in reg.items ==> r == Some(query)
    ensures r.Some? ==> r.value in reg.items
    ensures query !in reg.items && r.Some? ==>
              exists k :: 0 <= k < |reg.itemIds| && reg.itemIds[k] == r.value &&
                (FirstAt(ItemNames(reg.itemIds, reg.items), query, Whole, k) ||
                 (NoMatch(ItemNames(reg.itemIds, reg.items), query, Whole) &&
                  FirstAt(ItemNames(reg.itemIds, reg.items), query, Partial, k)))
    ensures r.None? <==>
              query !in reg.items &&
              forall id :: id in reg.items ==> !Matches(Partial, reg.items[id].name, query)
  {
    if query in reg.items then Some(query)
    else
      var names := ItemNames(reg.itemIds, reg.items);
      match FirstMatch(names, query, Whole)
      case Some(k) => Some(reg.itemIds[k])
      case None =>
        match FirstMatch(names, query, Partial)
        case Some(k) => Some(reg.itemIds[k])
        case None =>
          assert forall id :: id in reg.items ==> !Matches(Partial, reg.items[id].name, query) by {
            forall id | id in reg.items ensures !Matches(Partial, reg.items[id].name, query) {
              var i :| 0 <= i < |reg.itemIds| && reg.itemIds[i] == id;
              assert names[i] == reg.items[id].name;
            }
          }
          None
  }

  /** `examine`: the description of the first thing whose name contains the
      target, searching the inventory, then the room's items, then the room's
      characters; otherwise a not-found reply echoing the target. */
  function Examine(reg: Registry, s: State, target: string): (r: string)
    requires Valid(reg, s)
    ensures var room := CurrentRoom(s);
            var held := ItemNames(s.player.inventory, reg.items);
            var here := ItemNames(room.items, reg.items);
            var people := CharacterNames(room.characters, reg.characters);
            || (exists k :: FirstAt(held, target, Partial, k) &&
                  r == reg.items[s.player.inventory[k]].description)
            || (NoMatch(held, target, Partial) &&
                exists k :: FirstAt(here, target, Partial, k) &&
                  r == reg.items[room.items[k]].description)
            || (NoMatch(held, target, Partial) && NoMatch(here, target, Partial) &&
                exists k :: FirstAt(people, target, Partial, k) &&
                  r == reg.characters[room.characters[k]].description)
            || (NoMatch(held, target, Partial) && NoMatch(here, target, Partial) &&
                NoMatch(people, target, Partial) &&
                r == "You don't see any " + target + " here.")
  {
    var room := CurrentRoom(s);
    assert RoomValid(reg, s.locations.Keys, room);
    match FirstMatch(ItemNames(s.player.inventory, reg.items), target, Partial)
    case Some(k) => reg.items[s.player.inventory[k]].description
    case None =>
      match FirstMatch(ItemNames(room.items, reg.items), target, Partial)
      case Some(k) => reg.items[room.items[k]].description
      case None =>
        match FirstMatch(CharacterNames(room.characters, reg.characters), target, Partial)
        case Some(k) => reg.characters[room.characters[k]].description
        case None => "You don't see any " + target + " here."
  }

  /** `talk_to`: the greeting of the first character in the current room
      whose name contains the query, as `<Name>: "<greeting>"`. */
  function TalkTo(reg: Registry, s: State, query: string): (r: string)
    requires Valid(reg, s)
    ensures var room := CurrentRoom(s);
            var people := CharacterNames(room.characters, reg.characters);
            || (exists k :: FirstAt(people, query, Partial, k) &&
                  var c := reg.characters[room.characters[k]];
                  r == c.name + ": \"" + c.greeting + "\"")
            || (NoMatch(people, query, Partial) &&
                r == "There's no " + query + " here to talk to.")
  {
    var room := CurrentRoom(s);
    assert RoomValid(reg, s.locations.Keys, room);
    match FirstMatch(CharacterNames(room.characters, reg.characters), query, Partial)
    case Some(k) =>
      var c := reg.characters[room.characters[k]];
      c.name + ": \"" + c.greeting + "\""
    case None => "There's no " + query + " here to talk to."
  }
}
