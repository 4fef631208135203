/** The state transitions of the engine as functions from a world state to
    the next state and the reply: `move_player`, `take_item`, `drop_item`
    and the whole of `process_command`. The engine's methods are proved to
    follow them; the properties of the game are proved about them here. */
module Actions {
  import opened Text
  import opened World
  import Resolve
  import opened Render
  import opened Commands

  const HelpText: string :=
    "\nAvailable commands:\n"
    + "- go [direction] : Move in a direction (north, south, east, west, up, down)\n"
    + "- look           : Look around\n"
    + "- inventory      : Check what you're carrying\n"
    + "- take [item]    : Pick up an item\n"
    + "- drop [item]    : Drop an item you're carrying\n"
    + "- examine [thing]: Look at something more closely\n"
    + "- talk to [char] : Talk to a character\n"
    + "- quit           : End the game\n"
    + "You can also use shortcuts: n, s, e, w for directions, l for look, i for inventory\n"

  const NotUnderstood: string := "I don't understand that command. Type 'help' for a list of commands."

  /** `move_player`. */
  function MovePlayer(reg: Registry, s: State, direction: string): Outcome
    requires Valid(reg, s)
  {
    var room := CurrentRoom(s);
    match ExitTarget(room.exits, direction)
    case None => Outcome(s, "You can't go " + direction + " from here.")
    case Some(t) =>
      assert RoomValid(reg, s.locations.Keys, room);
      Outcome(Enter(s, t), "You go " + direction + " to " + s.locations[t].name + ".")
  }

  /** The player stands in room t; a room entered for the first time loses
      its first-visit flag. */
  function Enter(s: State, t: string): State
    requires t in s.locations
  {
    var moved := s.(player := s.player.(location := t));
    if s.locations[t].firstVisit then
      moved.(locations := s.locations[t := s.locations[t].(firstVisit := false)])
    else
      moved
  }

  /** `current_loc['items'].remove(item_id)` then `inventory.append(item_id)`. */
  function Pick(s: State, id: string): State
    requires s.player.location in s.locations && id in CurrentRoom(s).items
  {
    var room := CurrentRoom(s);
    s.(locations := s.locations[s.player.location := room.(items := Remove(room.items, id))],
       player := s.player.(inventory := s.player.inventory + [id]))
  }

  /** `inventory.remove(item_id)` then `current_loc['items'].append(item_id)`. */
  function Put(s: State, id: string): State
    requires s.player.location in s.locations && id in s.player.inventory
  {
    var room := CurrentRoom(s);
    s.(locations := s.locations[s.player.location := room.(items := room.items + [id])],
       player := s.player.(inventory := Remove(s.player.inventory, id)))
  }

  /** `take_item`. The name is resolved against the whole item registry and
      only then checked against the current room. An empty id counts as "not
      found", as Python's `not item_id` does. */
  function TakeItem(reg: Registry, s: State, name: string): Outcome
    requires Valid(reg, s)
  {
    var notHere := Outcome(s, "You don't see a " + name + " here.");
    match Resolve.ResolveItem(reg, name)
    case None => notHere
    case Some(id) =>
      var cur := s.player.location;
      var room := s.locations[cur];
      if id == "" || id !in room.items then notHere
      else
        var item := reg.items[id];
        if !item.portable then Outcome(s, "You can't take the " + item.name + ".")
        else if |s.player.inventory| >= s.player.maxInventory then
          Outcome(s, "You can't carry any more items.")
        else
          Outcome(Pick(s, id), "You take the " + item.name + ".")
  }

  /** `drop_item`. */
  function DropItem(reg: Registry, s: State, name: string): Outcome
    requires Valid(reg, s)
  {
    var notHeld := Outcome(s, "You don't have a " + name + ".");
    match Resolve.ResolveItem(reg, name)
    case None => notHeld
    case Some(id) =>
      if id == "" || id !in s.player.inventory then notHeld
      else
        Outcome(Put(s, id), "You drop the " + reg.items[id].name + ".")
  }

  /** The state with the move counter advanced; the first thing every command does. */
  function Counted(s: State): State {
    s.(player := s.player.(moves := s.player.moves + 1))
  }

  lemma CountedValid(reg: Registry, s: State)
    requires Valid(reg, s)
    ensures Valid(reg, Counted(s)) && Held(reg, Counted(s)) == Held(reg, s)
  {
    assert Held(reg, Counted(s)) == Held(reg, s);
  }

  /** The branch `process_command` takes once the command is recognised; t
      is the state with the move already counted. */
  function Dispatch(reg: Registry, t: State, command: Command): Outcome
    requires Valid(reg, t)
  {
    match command
    case Quit => Outcome(t.(running := false), "Thanks for playing!")
    case Look => Outcome(t, "You look around.")
    case Go(d) => MovePlayer(reg, t, d)
    case Inventory => Outcome(t, ShowInventory(reg, t.player.inventory))
    case Take(n) => TakeItem(reg, t, n)
    case Drop(n) => DropItem(reg, t, n)
    case Examine(n) => Outcome(t, Resolve.Examine(reg, t, n))
    case TalkTo(n) => Outcome(t, Resolve.TalkTo(reg, t, n))
    case Help => Outcome(t, HelpText)
    case Unknown => Outcome(t, NotUnderstood)
  }

  /** `process_command`: count the move, then dispatch on the parsed command. */
  function Process(reg: Registry, s: State, command: string): Outcome
    requires Valid(reg, s)
  {
    CountedValid(reg, s);
    Dispatch(reg, Counted(s), Parse(command))
  }

  // ---------------------------------------------------------------- moving

  /** Without an exit in that direction nothing changes. */
  lemma MoveBlocked(reg: Registry, s: State, direction: string)
    requires Valid(reg, s)
    requires forall e :: e in CurrentRoom(s).exits ==> e.direction != direction
    ensures MovePlayer(reg, s, direction) == Outcome(s, "You can't go " + direction + " from here.")
  {
    var exits := CurrentRoom(s).exits;
    assert forall i :: 0 <= i < |exits| ==> exits[i] in exits;
  }

  /** Through an exit the player stands exactly at its target, that room is
      marked visited, and nothing else changes. */
  lemma MoveEnters(reg: Registry, s: State, direction: string, e: Exit)
    requires Valid(reg, s)
    requires e in CurrentRoom(s).exits && e.direction == direction
    ensures e.target in s.locations
    ensures var o := MovePlayer(reg, s, direction);
            && o.state.player == s.player.(location := e.target)
            && o.state.running == s.running
            && o.state.locations.Keys == s.locations.Keys
            && o.state.locations[e.target] == s.locations[e.target].(firstVisit := false)
            && (forall l :: l in s.locations && l != e.target ==> o.state.locations[l] == s.locations[l])
            && o.reply == "You go " + direction + " to " + s.locations[e.target].name + "."
  {
    var room := CurrentRoom(s);
    assert RoomValid(reg, s.locations.Keys, room);
    ExitUnique(room.exits, e);
  }

  lemma MovePreservesValid(reg: Registry, s: State, direction: string)
    requires Valid(reg, s)
    ensures Valid(reg, MovePlayer(reg, s, direction).state)
    ensures Held(reg, MovePlayer(reg, s, direction).state) == Held(reg, s)
  {
    var room := CurrentRoom(s);
    match ExitTarget(room.exits, direction)
    case None =>
    case Some(t) =>
      assert RoomValid(reg, s.locations.Keys, room);
      EnterPreservesValid(reg, s, t);
  }

  /** Entering a room keeps the world valid and every item where it was. */
  lemma EnterPreservesValid(reg: Registry, s: State, t: string)
    requires Valid(reg, s) && t in s.locations
    ensures Valid(reg, Enter(s, t)) && Held(reg, Enter(s, t)) == Held(reg, s)
  {
    EnterKeepsHeld(reg, s, t);
    EnterKeepsRooms(reg, s, t);
  }

  lemma EnterKeepsHeld(reg: Registry, s: State, t: string)
    requires t in s.locations
    ensures Held(reg, Enter(s, t)) == Held(reg, s)
  {
    var dest := s.locations[t];
    RoomItemsKeepItems(reg.locationIds, s.locations, t, dest.(firstVisit := false));
  }

  lemma EnterKeepsRooms(reg: Registry, s: State, t: string)
    requires Valid(reg, s) && t in s.locations
    ensures var e := Enter(s, t);
            && e.locations.Keys == s.locations.Keys
            && forall l :: l in e.locations ==> RoomValid(reg, e.locations.Keys, e.locations[l])
  {
    var dest := s.locations[t];
    var locs := Enter(s, t).locations;
    assert locs.Keys == s.locations.Keys;
    assert RoomValid(reg, s.locations.Keys, dest);
    forall l | l in locs
      ensures RoomValid(reg, locs.Keys, locs[l])
    {
      if l != t {
        assert locs[l] == s.locations[l];
      }
    }
  }

  // ---------------------------------------------------------------- taking

  /** The refusals, in the order they are checked, each leaving the state
      unchanged. An id the resolver finds anywhere in the registry but not in
      this room is refused even when another item here would match the name. */
  lemma TakeRefusals(reg: Registry, s: State, name: string)
    requires Valid(reg, s)
    ensures var o := TakeItem(reg, s, name);
            var room := CurrentRoom(s);
            var r := Resolve.ResolveItem(reg, name);
            && (r.None? || r.value == "" || r.value !in room.items ==>
                  o == Outcome(s, "You don't see a " + name + " here."))
            && (r.Some? && r.value != "" && r.value in room.items && !reg.items[r.value].portable ==>
                  o == Outcome(s, "You can't take the " + reg.items[r.value].name + "."))
            && (r.Some? && r.value != "" && r.value in room.items && reg.items[r.value].portable &&
                |s.player.inventory| >= s.player.maxInventory ==>
                  o == Outcome(s, "You can't carry any more items."))
  {
  }

  /** A take either changes nothing, or moves one portable item from the
      current room to the end of the inventory, below capacity, touching no
      other room. */
  lemma TakeEffect(reg: Registry, s: State, name: string)
    requires Valid(reg, s)
    ensures var o := TakeItem(reg, s, name);
            var cur := s.player.location;
            || o.state == s
            || exists id ::
                 && Resolve.ResolveItem(reg, name) == Some(id)
                 && id in CurrentRoom(s).items
                 && reg.items[id].portable
                 && |s.player.inventory| < s.player.maxInventory
                 && o.state.player == s.player.(inventory := s.player.inventory + [id])
                 && o.state.running == s.running
                 && o.state.locations.Keys == s.locations.Keys
                 && multiset(o.state.locations[cur].items) + multiset{id} == multiset(CurrentRoom(s).items)
                 && (forall l :: l in s.locations && l != cur ==> o.state.locations[l] == s.locations[l])
                 && o.reply == "You take the " + reg.items[id].name + "."
  {
  }

  /** The success case of a take, with the id it resolved to. */
  lemma TakeSucceeds(reg: Registry, s: State, name: string, id: string)
    requires Valid(reg, s)
    requires Resolve.ResolveItem(reg, name) == Some(id) && id != ""
    requires id in CurrentRoom(s).items && reg.items[id].portable
    requires |s.player.inventory| < s.player.maxInventory
    ensures TakeItem(reg, s, name) == Outcome(Pick(s, id), "You take the " + reg.items[id].name + ".")
  {
  }

  /** A state that differs from a valid one only in the current room's item
      list and in the inventory is valid when the new lists are registered,
      the inventory fits, and no id has become doubly held. */
  lemma ValidAfterItemMove(reg: Registry, s: State, t: State, room: Location)
    requires Valid(reg, s)
    requires room == CurrentRoom(s).(items := room.items)
    requires t == s.(locations := s.locations[s.player.location := room],
                     player := s.player.(inventory := t.player.inventory))
    requires forall id :: id in room.items ==> id in reg.items
    requires forall id :: id in t.player.inventory ==> id in reg.items
    requires |t.player.inventory| <= t.player.maxInventory
    requires Held(reg, t) == Held(reg, s)
    ensures Valid(reg, t)
  {
    assert RoomValid(reg, s.locations.Keys, CurrentRoom(s));
    assert t.locations.Keys == s.locations.Keys;
    assert RoomValid(reg, t.locations.Keys, room);
    assert forall l :: l in t.locations ==> t.locations[l] == s.locations[l] || t.locations[l] == room;
  }

  /** Moving an item from the room into the inventory keeps the world valid
      and keeps every item id in play exactly as often as before. */
  lemma PickPreservesValid(reg: Registry, s: State, id: string)
    requires Valid(reg, s)
    requires id in CurrentRoom(s).items && |s.player.inventory| < s.player.maxInventory
    ensures Valid(reg, Pick(s, id)) && Held(reg, Pick(s, id)) == Held(reg, s)
  {
    var cur := s.player.location;
    var room := s.locations[cur];
    var left := room.(items := Remove(room.items, id));
    var locs := s.locations[cur := left];
    var t := Pick(s, id);
    assert t.locations == locs;
    RoomItemsUpdate(reg.locationIds, s.locations, cur, left);
    var before := RoomItems(reg.locationIds, s.locations);
    var after := RoomItems(reg.locationIds, locs);
    assert after + multiset{id} == before by {
      assert multiset(left.items) + multiset{id} == multiset(room.items);
      assert (after + multiset{id}) + multiset(left.items) == before + multiset(left.items);
      MultisetCancel(after + multiset{id}, before, multiset(left.items));
    }
    calc {
      Held(reg, t);
      multiset(s.player.inventory + [id]) + after;
      multiset(s.player.inventory) + (after + multiset{id});
      Held(reg, s);
    }
    assert RoomValid(reg, s.locations.Keys, room);
    ValidAfterItemMove(reg, s, t, left);
  }

  lemma TakePreservesValid(reg: Registry, s: State, name: string)
    requires Valid(reg, s)
    ensures Valid(reg, TakeItem(reg, s, name).state)
    ensures Held(reg, TakeItem(reg, s, name).state) == Held(reg, s)
  {
    var o := TakeItem(reg, s, name);
    if o.state != s {
      PickPreservesValid(reg, s, Resolve.ResolveItem(reg, name).value);
    }
  }

  // ---------------------------------------------------------------- dropping

  /** A drop succeeds exactly when the resolved id is in the inventory; it
      then moves that id from the inventory to the end of the current room's
      list. Otherwise nothing changes. */
  lemma DropEffect(reg: Registry, s: State, name: string)
    requires Valid(reg, s)
    ensures var o := DropItem(reg, s, name);
            var cur := s.player.location;
            var r := Resolve.ResolveItem(reg, name);
            && (r.None? || r.value == "" || r.value !in s.player.inventory ==>
                  o == Outcome(s, "You don't have a " + name + "."))
            && (r.Some? && r.value != "" && r.value in s.player.inventory ==>
                  && multiset(o.state.player.inventory) + multiset{r.value} == multiset(s.player.inventory)
                  && o.state.player.location == cur
                  && o.state.player.moves == s.player.moves
                  && o.state.running == s.running
                  && o.state.locations == s.locations[cur := CurrentRoom(s).(items := CurrentRoom(s).items + [r.value])]
                  && o.reply == "You drop the " + reg.items[r.value].name + ".")
  {
  }

  /** The success case of a drop, with the id it resolved to. */
  lemma DropSucceeds(reg: Registry, s: State, name: string, id: string)
    requires Valid(reg, s)
    requires Resolve.ResolveItem(reg, name) == Some(id) && id != "" && id in s.player.inventory
    ensures DropItem(reg, s, name) == Outcome(Put(s, id), "You drop the " + reg.items[id].name + ".")
  {
  }

  /** Moving an item from the inventory into the room keeps the world valid
      and keeps every item id in play exactly as often as before. */
  lemma PutPreservesValid(reg: Registry, s: State, id: string)
    requires Valid(reg, s)
    requires id in s.player.inventory
    ensures Valid(reg, Put(s, id)) && Held(reg, Put(s, id)) == Held(reg, s)
  {
    var cur := s.player.location;
    var room := s.locations[cur];
    var grown := room.(items := room.items + [id]);
    var locs := s.locations[cur := grown];
    var kept := Remove(s.player.inventory, id);
    var t := Put(s, id);
    assert t.locations == locs && t.player.inventory == kept;
    RoomItemsUpdate(reg.locationIds, s.locations, cur, grown);
    var before := RoomItems(reg.locationIds, s.locations);
    var after := RoomItems(reg.locationIds, locs);
    assert after == before + multiset{id} by {
      assert multiset(grown.items) == multiset(room.items) + multiset{id};
      assert after + multiset(room.items) == (before + multiset{id}) + multiset(room.items);
      MultisetCancel(after, before + multiset{id}, multiset(room.items));
    }
    calc {
      Held(reg, t);
      multiset(kept) + after;
      multiset(kept) + multiset{id} + before;
      Held(reg, s);
    }
    assert RoomValid(reg, s.locations.Keys, room);
    ValidAfterItemMove(reg, s, t, grown);
  }

  lemma DropPreservesValid(reg: Registry, s: State, name: string)
    requires Valid(reg, s)
    ensures Valid(reg, DropItem(reg, s, name).state)
    ensures Held(reg, DropItem(reg, s, name).state) == Held(reg, s)
  {
    var o := DropItem(reg, s, name);
    if o.state != s {
      PutPreservesValid(reg, s, Resolve.ResolveItem(reg, name).value);
    }
  }

  // ---------------------------------------------------------------- round trip

  /** An item in the current room of a valid world is there exactly once and
      is not also carried. */
  lemma HeldOnce(reg: Registry, s: State, id: string)
    requires Valid(reg, s) && id in CurrentRoom(s).items
    ensures id !in s.player.inventory
    ensures multiset(CurrentRoom(s).items)[id] == 1
  {
    RoomItemsInclude(reg.locationIds, s.locations, s.player.location);
    assert Held(reg, s)[id] <= 1;
  }

  /** Picking an item up and putting it back in the same room gives the
      inventory back exactly, the room's list back as a permutation and
      every other room back untouched. Exclusive ownership (HeldOnce)
      supplies the requirement in a valid world. */
  lemma PickThenPut(s: State, id: string)
    requires s.player.location in s.locations && id in CurrentRoom(s).items
    requires id !in s.player.inventory
    ensures var s2 := Put(Pick(s, id), id);
            && s2.player == s.player
            && s2.running == s.running
            && s2.locations.Keys == s.locations.Keys
            && multiset(s2.locations[s.player.location].items) == multiset(CurrentRoom(s).items)
            && (forall l :: l in s.locations && l != s.player.location ==> s2.locations[l] == s.locations[l])
  {
    RemoveAppended(s.player.inventory, id);
    var room := CurrentRoom(s);
    var s2 := Put(Pick(s, id), id);
    assert s2.locations[s.player.location].items == Remove(room.items, id) + [id];
  }

  /** When the item was the room's last entry, and held only there, the
      round trip restores the very same state. */
  lemma PickThenPutLast(s: State, id: string)
    requires s.player.location in s.locations && id in CurrentRoom(s).items
    requires id !in s.player.inventory && multiset(CurrentRoom(s).items)[id] == 1
    requires CurrentRoom(s).items[|CurrentRoom(s).items| - 1] == id
    ensures Put(Pick(s, id), id) == s
  {
    var cur := s.player.location;
    var room := s.locations[cur];
    var pre := room.items[..|room.items| - 1];
    assert room.items == pre + [id];
    assert multiset(room.items) == multiset(pre) + multiset{id};
    RemoveAppended(pre, id);
    RemoveAppended(s.player.inventory, id);
    assert Remove(room.items, id) + [id] == room.items;
    assert room.(items := Remove(room.items, id) + [id]) == room;
    assert Put(Pick(s, id), id).locations == s.locations[cur := room];
  }

  /** `take X` followed by `drop X` in the same room: the resolver does not
      look at the state, so the drop finds the very id the take moved, and
      the round trip of PickThenPut applies. */
  lemma TakeThenDrop(reg: Registry, s: State, name: string)
    requires Valid(reg, s)
    requires TakeItem(reg, s, name).state != s
    ensures (TakePreservesValid(reg, s, name);
             var s2 := DropItem(reg, TakeItem(reg, s, name).state, name).state;
             var id := Resolve.ResolveItem(reg, name).value;
             && id in CurrentRoom(s).items
             && id !in s.player.inventory
             && multiset(CurrentRoom(s).items)[id] == 1
             && s2 == Put(Pick(s, id), id))
  {
    TakePreservesValid(reg, s, name);
    var id := Resolve.ResolveItem(reg, name).value;
    var s1 := TakeItem(reg, s, name).state;
    assert s1 == Pick(s, id);
    assert id in s1.player.inventory;
    HeldOnce(reg, s, id);
  }

  // ---------------------------------------------------------------- dispatch

  /** Every command, recognised or not, adds exactly one move; only the quit
      words stop the game. */
  lemma ProcessCountsAndStops(reg: Registry, s: State, command: string)
    requires Valid(reg, s)
    ensures Process(reg, s, command).state.player.moves == s.player.moves + 1
    ensures Process(reg, s, command).state.running ==
              (s.running && command != "quit" && command != "exit" && command != "bye")
  {
    CountedValid(reg, s);
    QuitWords(command);
    DispatchCountsAndStops(reg, Counted(s), Parse(command));
  }

  /** No branch touches the move counter; only Quit stops the game. */
  lemma DispatchCountsAndStops(reg: Registry, t: State, command: Command)
    requires Valid(reg, t)
    ensures Dispatch(reg, t, command).state.player.moves == t.player.moves
    ensures Dispatch(reg, t, command).state.running == (t.running && !command.Quit?)
  {
    match command
    case Go(d) => MoveKeepsCounters(reg, t, d);
    case Take(n) => TakeKeepsCounters(reg, t, n);
    case Drop(n) => DropKeepsCounters(reg, t, n);
    case _ =>
  }

  lemma MoveKeepsCounters(reg: Registry, t: State, direction: string)
    requires Valid(reg, t)
    ensures MovePlayer(reg, t, direction).state.player.moves == t.player.moves
    ensures MovePlayer(reg, t, direction).state.running == t.running
  {
  }

  lemma TakeKeepsCounters(reg: Registry, t: State, name: string)
    requires Valid(reg, t)
    ensures TakeItem(reg, t, name).state.player.moves == t.player.moves
    ensures TakeItem(reg, t, name).state.running == t.running
  {
  }

  lemma DropKeepsCounters(reg: Registry, t: State, name: string)
    requires Valid(reg, t)
    ensures DropItem(reg, t, name).state.player.moves == t.player.moves
    ensures DropItem(reg, t, name).state.running == t.running
  {
  }

  /** A direction word, its one-letter shorthand and nothing else: after the
      move is counted, both go straight to `move_player` with the full
      direction name. */
  lemma ProcessDirection(reg: Registry, s: State, i: nat)
    requires Valid(reg, s) && i < |Shorthands|
    ensures Valid(reg, Counted(s))
    ensures Process(reg, s, Shorthands[i].0) == Process(reg, s, Shorthands[i].1)
         == MovePlayer(reg, Counted(s), Shorthands[i].1)
  {
    CountedValid(reg, s);
    DirectionForms(i);
  }

  /** `take X` and `get X` both reach `take_item` with X, after the count. */
  lemma ProcessTake(reg: Registry, s: State, rest: string)
    requires Valid(reg, s)
    ensures Valid(reg, Counted(s))
    ensures Process(reg, s, "take " + rest) == Process(reg, s, "get " + rest)
         == TakeItem(reg, Counted(s), rest)
  {
    CountedValid(reg, s);
    TakeForms(rest);
  }

  /** `drop X` reaches `drop_item` with X, after the count. */
  lemma ProcessDrop(reg: Registry, s: State, rest: string)
    requires Valid(reg, s)
    ensures Valid(reg, Counted(s))
    ensures Process(reg, s, "drop " + rest) == DropItem(reg, Counted(s), rest)
  {
    CountedValid(reg, s);
    DropForm(rest);
  }

  /** The commands that only look (look, inventory, examine, talk to, help and
      anything not understood) change nothing but the move counter. */
  lemma ProcessReadOnly(reg: Registry, s: State, command: string)
    requires Valid(reg, s)
    requires !(Parse(command).Quit? || Parse(command).Go? || Parse(command).Take? || Parse(command).Drop?)
    ensures Process(reg, s, command).state == Counted(s)
    ensures Parse(command) == Unknown ==> Process(reg, s, command).reply == NotUnderstood
  {
  }

  /** Every recognised branch keeps the world consistent and keeps the
      multiset of item ids across rooms and inventory unchanged. */
  lemma DispatchPreservesValid(reg: Registry, t: State, command: Command)
    requires Valid(reg, t)
    ensures Valid(reg, Dispatch(reg, t, command).state)
    ensures Held(reg, Dispatch(reg, t, command).state) == Held(reg, t)
  {
    match command
    case Go(d) => MovePreservesValid(reg, t, d);
    case Take(n) => TakePreservesValid(reg, t, n);
    case Drop(n) => DropPreservesValid(reg, t, n);
    case Quit => assert Held(reg, t.(running := false)) == Held(reg, t);
    case _ =>
  }

  /** Every command keeps the world consistent and keeps the multiset of
      item ids across rooms and inventory unchanged. */
  lemma ProcessPreservesValid(reg: Registry, s: State, command: string)
    requires Valid(reg, s)
    ensures Valid(reg, Process(reg, s, command).state)
    ensures Held(reg, Process(reg, s, command).state) == Held(reg, s)
  {
    CountedValid(reg, s);
    DispatchPreservesValid(reg, Counted(s), Parse(command));
  }
}
