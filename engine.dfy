/** `GrueEngine`: the object that owns the world for one session and changes
    it in place as commands arrive. Each mutating method is proved to do
    exactly what the matching transition function of Actions describes, and
    to keep the world valid. */
module Engine {
  import opened World
  import opened Commands
  import Resolve
  import Render
  import Actions

  class GrueEngine {
    /** The item and character registries and the location order; the engine
        never changes them. */
    const reg: Registry
    var locations: map<string, Location>
    var player: Player
    var running: bool

    function Snapshot(): State
      reads this
    {
      State(locations, player, running)
    }

    ghost predicate Valid()
      reads this
    {
      World.Valid(reg, Snapshot())
    }

    /** `__init__` followed by `load_game`: the engine takes the content pack's
        registries and a copy of its player record, and is not yet running. */
    constructor (reg: Registry, locations: map<string, Location>, player: Player)
      requires World.Valid(reg, State(locations, player, false))
      ensures this.reg == reg
      ensures Snapshot() == State(locations, player, false)
      ensures Valid()
    {
      this.reg := reg;
      this.locations := locations;
      this.player := player;
      this.running := false;
    }

    /** The first step of `start_game`: the session is running. */
    method Start()
      requires Valid()
      modifies this
      ensures Valid()
      ensures Snapshot() == old(Snapshot()).(running := true)
    {
      running := true;
      assert Held(reg, Snapshot()) == Held(reg, old(Snapshot()));
    }

    /** `move_player`. */
    method MovePlayer(direction: string) returns (reply: string)
      requires Valid()
      modifies this
      ensures Valid()
      ensures Outcome(Snapshot(), reply) == Actions.MovePlayer(reg, old(Snapshot()), direction)
    {
      ghost var s0 := Snapshot();
      Actions.MovePreservesValid(reg, s0, direction);
      var currentLoc := locations[player.location];
      match ExitTarget(currentLoc.exits, direction)
      case Some(newLocationId) =>
        assert newLocationId in locations by {
          assert RoomValid(reg, locations.Keys, currentLoc);
        }
        var newLoc := locations[newLocationId];
        player := player.(location := newLocationId);
        if newLoc.firstVisit {
          locations := locations[newLocationId := newLoc.(firstVisit := false)];
        }
        reply := "You go " + direction + " to " + newLoc.name + ".";
      case None =>
        reply := "You can't go " + direction + " from here.";
    }

    /** `take_item`. */
    method TakeItem(itemName: string) returns (reply: string)
      requires Valid()
      modifies this
      ensures Valid()
      ensures Outcome(Snapshot(), reply) == Actions.TakeItem(reg, old(Snapshot()), itemName)
    {
      ghost var s0 := Snapshot();
      Actions.TakePreservesValid(reg, s0, itemName);
      var found := Resolve.ResolveItem(reg, itemName);
      if found.None? || found.value == "" {
        return "You don't see a " + itemName + " here.";
      }
      var itemId := found.value;
      var currentLoc := locations[player.location];
      if itemId !in currentLoc.items {
        return "You don't see a " + itemName + " here.";
      }
      var item := reg.items[itemId];
      if !item.portable {
        return "You can't take the " + item.name + ".";
      }
      if |player.inventory| >= player.maxInventory {
        return "You can't carry any more items.";
      }
      locations := locations[player.location := currentLoc.(items := Remove(currentLoc.items, itemId))];
      player := player.(inventory := player.inventory + [itemId]);
      reply := "You take the " + item.name + ".";
    }

    /** `drop_item`. */
    method DropItem(itemName: string) returns (reply: string)
      requires Valid()
      modifies this
      ensures Valid()
      ensures Outcome(Snapshot(), reply) == Actions.DropItem(reg, old(Snapshot()), itemName)
    {
      ghost var s0 := Snapshot();
      Actions.DropPreservesValid(reg, s0, itemName);
      var found := Resolve.ResolveItem(reg, itemName);
      if found.None? || found.value == "" || found.value !in player.inventory {
        return "You don't have a " + itemName + ".";
      }
      var itemId := found.value;
      var item := reg.items[itemId];
      player := player.(inventory := Remove(player.inventory, itemId));
      var currentLoc := locations[player.location];
      locations := locations[player.location := currentLoc.(items := currentLoc.items + [itemId])];
      reply := "You drop the " + item.name + ".";
    }

    /** `process_command`: count the move, then act on the parsed command. */
    method ProcessCommand(command: string) returns (reply: string)
      requires Valid()
      modifies this
      ensures Valid()
      ensures Outcome(Snapshot(), reply) == Actions.Process(reg, old(Snapshot()), command)
    {
      ghost var s0 := Snapshot();
      player := player.(moves := player.moves + 1);
      Actions.CountedValid(reg, s0);
      var parsed := Parse(command);
      assert Snapshot() == Actions.Counted(s0);
      assert Actions.Process(reg, s0, command) == Actions.Dispatch(reg, Actions.Counted(s0), parsed);
      reply := Execute(parsed);
    }

    /** The branch `process_command` takes for a recognised command, once the
        move is counted. */
    method Execute(command: Command) returns (reply: string)
      requires Valid()
      modifies this
      ensures Valid()
      ensures Outcome(Snapshot(), reply) == Actions.Dispatch(reg, old(Snapshot()), command)
    {
      ghost var s0 := Snapshot();
      Actions.DispatchPreservesValid(reg, s0, command);
      match command
      case Quit =>
        running := false;
        reply := "Thanks for playing!";
      case Look =>
        reply := "You look around.";
      case Go(direction) =>
        reply := MovePlayer(direction);
      case Inventory =>
        reply := Render.ShowInventory(reg, player.inventory);
      case Take(itemName) =>
        reply := TakeItem(itemName);
      case Drop(itemName) =>
        reply := DropItem(itemName);
      case Examine(target) =>
        reply := Resolve.Examine(reg, Snapshot(), target);
      case TalkTo(characterName) =>
        reply := Resolve.TalkTo(reg, Snapshot(), characterName);
      case Help =>
        reply := Actions.HelpText;
      case Unknown =>
        reply := Actions.NotUnderstood;
    }
  }
}
