/** The Crystalia Manor content pack as a concrete world, and a short session
    played against it through `process_command`. */
module Crystalia {
  import opened World
  import Text
  import Commands
  import Resolve
  import Actions

  const KeyText: string := "A rusty old key. It might open something nearby."
  const FlowerText: string := "A vibrant flower with red and yellow petals."
  const DoorText: string := "A heavy wooden door with an old keyhole."
  const GardenerText: string := "A wizened old man with gnarled hands tending to the wild plants. His eyes hold secrets."
  const GreetingText: string := "Ah, a visitor to Crystalia Manor? It's been... decades since we've had guests."
  const StartText: string := "You are in a grand entrance hall with marble floors and a dusty chandelier overhead."
  const HallwayText: string := "You are in a long corridor with faded portraits hanging on wood-paneled walls."
  const GardenText: string := "You are in what was once a manicured garden, now wild and overgrown with exotic plants."

  const Key := Item("Old Key", KeyText, true, true)
  const Flower := Item("Beautiful Flower", FlowerText, true, true)
  const Door := Item("Locked Door", DoorText, false, true)
  const Gardener := Character(
    "Ancient Groundskeeper",
    GardenerText,
    GreetingText)

  const Reg := Registry(
    ["old_key", "flower", "locked_door"],
    map["old_key" := Key, "flower" := Flower, "locked_door" := Door],
    map["gardener" := Gardener],
    ["start", "hallway", "garden"])

  /** The manor with the player at `location`, the old key either in the
      corridor or carried, the two first-visit flags of the route, and the
      move counter. The garden is never entered here. */
  function Manor(location: string, keyHeld: bool, startFirst: bool, hallFirst: bool, moves: int): State {
    var start := Location(
      "Entrance Hall",
      StartText,
      [Exit("north", "hallway")], [], [], startFirst);
    var hallway := Location(
      "Main Corridor",
      HallwayText,
      [Exit("south", "start"), Exit("east", "garden")],
      if keyHeld then [] else ["old_key"], [], hallFirst);
    var garden := Location(
      "Overgrown Garden",
      GardenText,
      [Exit("west", "hallway")], ["flower"], ["gardener"], true);
    State(
      map["start" := start, "hallway" := hallway, "garden" := garden],
      Player(location, if keyHeld then ["old_key"] else [], 10, moves),
      true)
  }

  lemma RegistryWellFormed()
    ensures RegistryValid(Reg)
  {
  }

  /** Exits lead to the three rooms, and only registered items and
      characters lie in them. */
  lemma RoomsWellFormed(location: string, keyHeld: bool, startFirst: bool, hallFirst: bool, moves: int)
    ensures var rooms := Manor(location, keyHeld, startFirst, hallFirst, moves).locations;
            forall l :: l in rooms ==> RoomValid(Reg, rooms.Keys, rooms[l])
  {
    var rooms := Manor(location, keyHeld, startFirst, hallFirst, moves).locations;
    assert Directions(rooms["start"].exits) == ["north"];
    assert Directions(rooms["hallway"].exits) == ["south", "east"];
    assert Directions(rooms["garden"].exits) == ["west"];
  }

  /** The items of three listed rooms, counted together. */
  lemma RoomItemsOfThree(a: string, b: string, c: string, rooms: map<string, Location>)
    requires a in rooms && b in rooms && c in rooms
    ensures RoomItems([a, b, c], rooms)
         == multiset(rooms[a].items) + multiset(rooms[b].items) + multiset(rooms[c].items)
  {
    assert RoomItems([c], rooms) == multiset(rooms[c].items) by { assert [c][1..] == []; }
    assert RoomItems([b, c], rooms) == multiset(rooms[b].items) + RoomItems([c], rooms)
      by { assert [b, c][1..] == [c]; }
    assert [a, b, c][1..] == [b, c];
  }

  /** The old key is in exactly one place (the corridor or the inventory),
      the flower in the garden; the door lies nowhere. */
  lemma ManorHeld(location: string, keyHeld: bool, startFirst: bool, hallFirst: bool, moves: int)
    ensures Held(Reg, Manor(location, keyHeld, startFirst, hallFirst, moves)) == multiset{"old_key", "flower"}
  {
    var s := Manor(location, keyHeld, startFirst, hallFirst, moves);
    var rooms := s.locations;
    RoomItemsOfThree("start", "hallway", "garden", rooms);
    assert multiset(rooms["start"].items) == multiset{};
    assert multiset(rooms["garden"].items) == multiset{"flower"};
    if keyHeld {
      assert multiset(s.player.inventory) == multiset{"old_key"};
      assert multiset(rooms["hallway"].items) == multiset{};
    } else {
      assert multiset(s.player.inventory) == multiset{};
      assert multiset(rooms["hallway"].items) == multiset{"old_key"};
    }
  }

  /** Every manor state of this shape is a well-formed world. */
  lemma ManorValid(location: string, keyHeld: bool, startFirst: bool, hallFirst: bool, moves: int)
    requires location == "start" || location == "hallway" || location == "garden"
    ensures Valid(Reg, Manor(location, keyHeld, startFirst, hallFirst, moves))
  {
    var s := Manor(location, keyHeld, startFirst, hallFirst, moves);
    RegistryWellFormed();
    RoomsWellFormed(location, keyHeld, startFirst, hallFirst, moves);
    ManorHeld(location, keyHeld, startFirst, hallFirst, moves);
    assert s.locations.Keys == (set l | l in Reg.locationIds);
  }

  /** The item names in registry order, and the key's name lower-cased. */
  lemma KeyName()
    ensures Resolve.ItemNames(Reg.itemIds, Reg.items) == ["Old Key", "Beautiful Flower", "Locked Door"]
    ensures Text.Lower("Old Key") == "old key"
  {
  }

  /** The key's name, in any letter case, finds it by the whole-name tier;
      no item id looks like it. */
  lemma KeyByName(name: string)
    requires Text.Lower(name) == "old key"
    ensures Resolve.ResolveItem(Reg, name) == Some("old_key")
  {
    RegistryWellFormed();
    KeyName();
    assert Text.LowerChar(name[3]) == ' ';
    assert name !in Reg.items;
    var names := Resolve.ItemNames(Reg.itemIds, Reg.items);
    assert Resolve.Matches(Resolve.Whole, names[0], name);
  }

  /** A fragment of the key's name, in any letter case, finds it by the
      substring tier, since no item's whole name equals it. */
  lemma KeyByFragment(name: string)
    requires Text.Lower(name) == "key"
    ensures Resolve.ResolveItem(Reg, name) == Some("old_key")
  {
    RegistryWellFormed();
    KeyName();
    assert name !in Reg.items;
    var names := Resolve.ItemNames(Reg.itemIds, Reg.items);
    assert forall i :: 0 <= i < |names| ==> |names[i]| != 3;
    assert Resolve.NoMatch(names, name, Resolve.Whole);
    assert Text.OccursAt("old key", "key", 4) by {
      assert "old key" == "old " + "key";
    }
    Text.ContainsAt("old key", "key");
    assert Resolve.Matches(Resolve.Partial, names[0], name);
  }

  /** Counting a move in a manor state only advances its counter. */
  lemma CountedManor(location: string, keyHeld: bool, startFirst: bool, hallFirst: bool, moves: int)
    ensures Actions.Counted(Manor(location, keyHeld, startFirst, hallFirst, moves))
         == Manor(location, keyHeld, startFirst, hallFirst, moves + 1)
  {
  }

  /** The corridor lies north of the entrance, and entering it clears its
      first-visit flag. */
  lemma NorthOfStart(hallFirst: bool, moves: int)
    ensures var s := Manor("start", false, true, hallFirst, moves);
            && ExitTarget(s.locations["start"].exits, "north") == Some("hallway")
            && s.locations["hallway" := s.locations["hallway"].(firstVisit := false)]
               == Manor("hallway", false, true, false, moves).locations
            && "You go " + "north" + " to " + s.locations["hallway"].name + "." == "You go north to Main Corridor."
  {
  }

  /** The entrance lies south of the corridor, and entering it clears its
      first-visit flag. */
  lemma SouthOfHallway(startFirst: bool, moves: int)
    ensures var s := Manor("hallway", false, startFirst, false, moves);
            && ExitTarget(s.locations["hallway"].exits, "south") == Some("start")
            && s.locations["start" := s.locations["start"].(firstVisit := false)]
               == Manor("start", false, false, false, moves).locations
            && "You go " + "south" + " to " + s.locations["start"].name + "." == "You go south to Entrance Hall."
  {
  }

  /** Taking the key from the corridor and putting it back. */
  lemma KeyMoves(moves: int)
    ensures Actions.Pick(Manor("hallway", false, true, false, moves), "old_key") == Manor("hallway", true, true, false, moves)
    ensures Actions.Put(Manor("hallway", true, true, false, moves), "old_key") == Manor("hallway", false, true, false, moves)
    ensures "You take the " + Key.name + "." == "You take the Old Key."
    ensures "You drop the " + Key.name + "." == "You drop the Old Key."
  {
    assert Remove(["old_key"], "old_key") == [];
    var s := Manor("hallway", true, true, false, moves);
    var t := Manor("hallway", false, true, false, moves);
    var hall := s.locations["hallway"];
    assert hall.items + ["old_key"] == ["old_key"];
    assert s.locations["hallway" := hall.(items := hall.items + ["old_key"])] == t.locations;
  }

  lemma GoNorth(hallFirst: bool, moves: int)
    ensures Valid(Reg, Manor("start", false, true, hallFirst, moves))
    ensures Actions.MovePlayer(Reg, Manor("start", false, true, hallFirst, moves), "north")
         == Outcome(Manor("hallway", false, true, false, moves), "You go north to Main Corridor.")
  {
    ManorValid("start", false, true, hallFirst, moves);
    NorthOfStart(hallFirst, moves);
  }

  lemma GoSouth(startFirst: bool, moves: int)
    ensures Valid(Reg, Manor("hallway", false, startFirst, false, moves))
    ensures Actions.MovePlayer(Reg, Manor("hallway", false, startFirst, false, moves), "south")
         == Outcome(Manor("start", false, false, false, moves), "You go south to Entrance Hall.")
  {
    ManorValid("hallway", false, startFirst, false, moves);
    SouthOfHallway(startFirst, moves);
  }

  lemma TakeKey(moves: int, name: string)
    requires Text.Lower(name) == "old key"
    ensures Valid(Reg, Manor("hallway", false, true, false, moves))
    ensures Actions.TakeItem(Reg, Manor("hallway", false, true, false, moves), name)
         == Outcome(Manor("hallway", true, true, false, moves), "You take the Old Key.")
  {
    ManorValid("hallway", false, true, false, moves);
    KeyByName(name);
    KeyMoves(moves);
    Actions.TakeSucceeds(Reg, Manor("hallway", false, true, false, moves), name, "old_key");
  }

  lemma DropKey(moves: int, name: string)
    requires Text.Lower(name) == "old key"
    ensures Valid(Reg, Manor("hallway", true, true, false, moves))
    ensures Actions.DropItem(Reg, Manor("hallway", true, true, false, moves), name)
         == Outcome(Manor("hallway", false, true, false, moves), "You drop the Old Key.")
  {
    ManorValid("hallway", true, true, false, moves);
    KeyByName(name);
    KeyMoves(moves);
    Actions.DropSucceeds(Reg, Manor("hallway", true, true, false, moves), name, "old_key");
  }

  /** The command lines of the session reach their actions, after the move
      is counted. */
  lemma LineNorth(s: State)
    requires Valid(Reg, s)
    ensures Valid(Reg, Actions.Counted(s))
    ensures Actions.Process(Reg, s, "north") == Actions.MovePlayer(Reg, Actions.Counted(s), "north")
  {
    Actions.ProcessDirection(Reg, s, 0);
    assert Commands.Shorthands[0].1 == "north";
  }

  lemma LineSouth(s: State)
    requires Valid(Reg, s)
    ensures Valid(Reg, Actions.Counted(s))
    ensures Actions.Process(Reg, s, "south") == Actions.MovePlayer(Reg, Actions.Counted(s), "south")
  {
    Actions.ProcessDirection(Reg, s, 1);
    assert Commands.Shorthands[1].1 == "south";
  }

  lemma StepNorth(moves: int)
    ensures Valid(Reg, Manor("start", false, true, true, moves))
    ensures Actions.Process(Reg, Manor("start", false, true, true, moves), "north")
         == Outcome(Manor("hallway", false, true, false, moves + 1), "You go north to Main Corridor.")
  {
    ManorValid("start", false, true, true, moves);
    CountedManor("start", false, true, true, moves);
    LineNorth(Manor("start", false, true, true, moves));
    GoNorth(true, moves + 1);
  }

  lemma StepTake(moves: int, name: string)
    requires Text.Lower(name) == "old key"
    ensures Valid(Reg, Manor("hallway", false, true, false, moves))
    ensures Actions.Process(Reg, Manor("hallway", false, true, false, moves), "take " + name)
         == Outcome(Manor("hallway", true, true, false, moves + 1), "You take the Old Key.")
  {
    ManorValid("hallway", false, true, false, moves);
    CountedManor("hallway", false, true, false, moves);
    Actions.ProcessTake(Reg, Manor("hallway", false, true, false, moves), name);
    TakeKey(moves + 1, name);
  }

  lemma StepDrop(moves: int, name: string)
    requires Text.Lower(name) == "old key"
    ensures Valid(Reg, Manor("hallway", true, true, false, moves))
    ensures Actions.Process(Reg, Manor("hallway", true, true, false, moves), "drop " + name)
         == Outcome(Manor("hallway", false, true, false, moves + 1), "You drop the Old Key.")
  {
    ManorValid("hallway", true, true, false, moves);
    CountedManor("hallway", true, true, false, moves);
    Actions.ProcessDrop(Reg, Manor("hallway", true, true, false, moves), name);
    DropKey(moves + 1, name);
  }

  lemma StepSouth(moves: int)
    ensures Valid(Reg, Manor("hallway", false, true, false, moves))
    ensures Actions.Process(Reg, Manor("hallway", false, true, false, moves), "south")
         == Outcome(Manor("start", false, false, false, moves + 1), "You go south to Entrance Hall.")
  {
    ManorValid("hallway", false, true, false, moves);
    CountedManor("hallway", false, true, false, moves);
    LineSouth(Manor("hallway", false, true, false, moves));
    GoSouth(true, moves + 1);
  }

  /** The end state of the session against the start state. */
  lemma SessionEnd(moves: int)
    ensures var s0 := Manor("start", false, true, true, moves);
            var s4 := Manor("start", false, false, false, moves + 4);
            && s4.player == s0.player.(moves := moves + 4)
            && s4.running == s0.running
            && s4.locations.Keys == s0.locations.Keys
            && s4.locations["hallway"] == s0.locations["hallway"].(firstVisit := false)
            && s4.locations["start"] == s0.locations["start"].(firstVisit := false)
            && s4.locations["garden"] == s0.locations["garden"]
  {
  }

  /** north, take <the key>, drop <the key>, south, from the freshly loaded
      manor and with the key named in any letter case: the player is back at
      the entrance with the key back in the corridor and the inventory empty;
      only the move counter (up by four) and the first-visit flags of the two
      rooms entered have changed. */
  lemma KeyRoundTrip(moves: int, name: string)
    requires Text.Lower(name) == "old key"
    ensures var s0 := Manor("start", false, true, true, moves);
            && Valid(Reg, s0)
            && var s1 := Actions.Process(Reg, s0, "north").state;
            && Valid(Reg, s1)
            && var s2 := Actions.Process(Reg, s1, "take " + name).state;
            && Valid(Reg, s2)
            && var s3 := Actions.Process(Reg, s2, "drop " + name).state;
            && Valid(Reg, s3)
            && var s4 := Actions.Process(Reg, s3, "south").state;
            && s4.player == s0.player.(moves := moves + 4)
            && s4.running == s0.running
            && s4.locations.Keys == s0.locations.Keys
            && s4.locations["hallway"] == s0.locations["hallway"].(firstVisit := false)
            && s4.locations["start"] == s0.locations["start"].(firstVisit := false)
            && s4.locations["garden"] == s0.locations["garden"]
  {
    StepNorth(moves);
    StepTake(moves + 1, name);
    StepDrop(moves + 2, name);
    StepSouth(moves + 3);
    SessionEnd(moves);
    var s1 := Manor("hallway", false, true, false, moves + 1);
    var s2 := Manor("hallway", true, true, false, moves + 2);
    var s3 := Manor("hallway", false, true, false, moves + 3);
    assert Actions.Process(Reg, Manor("start", false, true, true, moves), "north").state == s1;
    assert Actions.Process(Reg, s1, "take " + name).state == s2;
    assert Actions.Process(Reg, s2, "drop " + name).state == s3;
  }
}
