/** The engine's data: the registries loaded from a content pack, the player
    record and the mutable part of the world, with the consistency rules that
    every command keeps. */
module World {

  datatype Option<T> = None | Some(value: T)

  /** An entry of the item registry. The `actions` and `properties` bags are
      never read by the engine and are not modelled. */
  datatype Item = Item(name: string, description: string, portable: bool, visible: bool)

  /** An entry of the character registry; of the dialogue table only the
      `greeting` line is ever read. */
  datatype Character = Character(name: string, description: string, greeting: string)

  /** One entry of a location's `exits` dictionary, kept in insertion order. */
  datatype Exit = Exit(direction: string, target: string)

  datatype Location = Location(
    name: string,
    description: string,
    exits: seq<Exit>,
    items: seq<string>,
    characters: seq<string>,
    firstVisit: bool)

  /** The parts of a content pack the engine never changes: the item registry
      (ids in dictionary order plus the entries), the character registry and
      the order of the location registry. */
  datatype Registry = Registry(
    itemIds: seq<string>,
    items: map<string, Item>,
    characters: map<string, Character>,
    locationIds: seq<string>)

  /** The player record; `moves` is `player['stats']['moves']`. */
  datatype Player = Player(location: string, inventory: seq<string>, maxInventory: int, moves: int)

  /** What a command may change: the locations, the player and the running flag. */
  datatype State = State(locations: map<string, Location>, player: Player, running: bool)

  /** The state after a command together with the reply it printed. */
  datatype Outcome = Outcome(state: State, reply: string)

  predicate Distinct<T(==)>(s: seq<T>) {
    forall i, j :: 0 <= i < j < |s| ==> s[i] != s[j]
  }

  /** `list.remove(x)`: drop the first occurrence of x. */
  function Remove(xs: seq<string>, x: string): (r: seq<string>)
    requires x in xs
    ensures |r| == |xs| - 1
    ensures multiset(r) + multiset{x} == multiset(xs)
    ensures forall y :: y in r ==> y in xs
  {
    assert xs == [xs[0]] + xs[1..];
    if xs[0] == x then xs[1..] else [xs[0]] + Remove(xs[1..], x)
  }

  /** The position of the first occurrence of x. */
  function FirstIndex(xs: seq<string>, x: string): (i: nat)
    requires x in xs
    ensures i < |xs| && xs[i] == x && x !in xs[..i]
  {
    if xs[0] == x then 0
    else
      InTail(xs, x);
      var j := FirstIndex(xs[1..], x);
      ConsSlices(xs, j);
      j + 1
  }

  lemma InTail(xs: seq<string>, x: string)
    requires x in xs && xs[0] != x
    ensures x in xs[1..]
  {
    var k :| 0 <= k < |xs| && xs[k] == x;
    assert xs[1..][k - 1] == x;
  }

  /** Slicing a list around position j + 1 is slicing its tail around j. */
  lemma ConsSlices(xs: seq<string>, j: nat)
    requires j + 1 < |xs|
    ensures xs[..j + 1] == [xs[0]] + xs[1..][..j]
    ensures xs[j + 2..] == xs[1..][j + 1..]
  {
  }

  /** Remove cuts the list at the first occurrence of x. */
  lemma {:induction false} RemoveAtFirst(xs: seq<string>, x: string)
    requires x in xs
    ensures var i := FirstIndex(xs, x); Remove(xs, x) == xs[..i] + xs[i + 1..]
  {
    if xs[0] != x {
      InTail(xs, x);
      RemoveAtFirst(xs[1..], x);
      var j := FirstIndex(xs[1..], x);
      ConsSlices(xs, j);
    }
  }

  /** Exactly the first occurrence goes; the elements before and after it
      keep their order. */
  lemma RemoveFirst(xs: seq<string>, x: string)
    requires x in xs
    ensures exists i :: 0 <= i < |xs| && xs[i] == x && x !in xs[..i] && Remove(xs, x) == xs[..i] + xs[i + 1..]
  {
    RemoveAtFirst(xs, x);
    var i := FirstIndex(xs, x);
    assert Remove(xs, x) == xs[..i] + xs[i + 1..];
  }

  /** Removing the element that was just appended gives back the list,
      provided the list did not already hold it. */
  lemma {:induction false} RemoveAppended(xs: seq<string>, x: string)
    requires x !in xs
    ensures Remove(xs + [x], x) == xs
  {
    if xs != [] {
      assert (xs + [x])[1..] == xs[1..] + [x];
      RemoveAppended(xs[1..], x);
    }
  }

  /** `direction in exits` followed by `exits[direction]`. */
  function ExitTarget(exits: seq<Exit>, direction: string): (r: Option<string>)
    ensures r.None? <==> forall i :: 0 <= i < |exits| ==> exits[i].direction != direction
    ensures r.Some? ==> Exit(direction, r.value) in exits
  {
    if exits == [] then None
    else if exits[0].direction == direction then Some(exits[0].target)
    else ExitTarget(exits[1..], direction)
  }

  function Directions(exits: seq<Exit>): (r: seq<string>)
    ensures |r| == |exits|
    ensures forall i :: 0 <= i < |exits| ==> r[i] == exits[i].direction
  {
    if exits == [] then [] else [exits[0].direction] + Directions(exits[1..])
  }

  /** The item ids held by the rooms named in ids, counted with multiplicity. */
  function RoomItems(ids: seq<string>, locations: map<string, Location>): multiset<string> {
    if ids == [] then multiset{}
    else (if ids[0] in locations then multiset(locations[ids[0]].items) else multiset{})
         + RoomItems(ids[1..], locations)
  }

  /** Every item id sitting in some container: the inventory and every room. */
  function Held(reg: Registry, s: State): multiset<string> {
    multiset(s.player.inventory) + RoomItems(reg.locationIds, s.locations)
  }

  ghost predicate RegistryValid(reg: Registry) {
    && Distinct(reg.itemIds)
    && reg.items.Keys == (set id | id in reg.itemIds)
    && Distinct(reg.locationIds)
  }

  /** The references a room holds are resolvable: exits lead to locations and
      its items and characters are registered. */
  ghost predicate RoomValid(reg: Registry, keys: set<string>, room: Location) {
    && Distinct(Directions(room.exits))
    && (forall e :: e in room.exits ==> e.target in keys)
    && (forall id :: id in room.items ==> id in reg.items)
    && (forall c :: c in room.characters ==> c in reg.characters)
  }

  /** The world's consistency rules: every reference resolves, the inventory
      is within its capacity, and no item id sits in two containers (or twice
      in one). */
  ghost predicate Valid(reg: Registry, s: State) {
    && RegistryValid(reg)
    && s.locations.Keys == (set l | l in reg.locationIds)
    && s.player.location in s.locations
    && (forall l :: l in s.locations ==> RoomValid(reg, s.locations.Keys, s.locations[l]))
    && (forall id :: id in s.player.inventory ==> id in reg.items)
    && |s.player.inventory| <= s.player.maxInventory
    && (forall id :: Held(reg, s)[id] <= 1)
  }

  function CurrentRoom(s: State): Location
    requires s.player.location in s.locations
  {
    s.locations[s.player.location]
  }

  /** With distinct exit directions, an exit is the one the lookup finds
      for its own direction. */
  lemma ExitUnique(exits: seq<Exit>, e: Exit)
    requires Distinct(Directions(exits)) && e in exits
    ensures ExitTarget(exits, e.direction) == Some(e.target)
  {
    var ds := Directions(exits);
    var i :| 0 <= i < |exits| && exits[i] == e;
    assert exits[i].direction == e.direction;
    var t := ExitTarget(exits, e.direction).value;
    var j :| 0 <= j < |exits| && exits[j] == Exit(e.direction, t);
    assert ds[i] == ds[j];
    assert i == j;
  }

  /** A room outside ids does not contribute. */
  lemma {:induction false} RoomItemsFrame(ids: seq<string>, locations: map<string, Location>, k: string, room: Location)
    requires k !in ids
    ensures RoomItems(ids, locations[k := room]) == RoomItems(ids, locations)
  {
    if ids != [] {
      RoomItemsFrame(ids[1..], locations, k, room);
    }
  }

  /** Replacing one room changes the total by exactly the difference between
      its old and new item lists. */
  lemma {:induction false} RoomItemsUpdate(ids: seq<string>, locations: map<string, Location>, k: string, room: Location)
    requires Distinct(ids) && k in ids && k in locations
    ensures RoomItems(ids, locations[k := room]) + multiset(locations[k].items)
         == RoomItems(ids, locations) + multiset(room.items)
  {
    if ids[0] == k {
      assert k !in ids[1..] by {
        forall j | 0 <= j < |ids[1..]| ensures ids[1..][j] != k {
          assert ids[1..][j] == ids[j + 1];
        }
      }
      RoomItemsFrame(ids[1..], locations, k, room);
    } else {
      assert Distinct(ids[1..]) by {
        forall i, j | 0 <= i < j < |ids[1..]| ensures ids[1..][i] != ids[1..][j] {
          assert ids[1..][i] == ids[i + 1] && ids[1..][j] == ids[j + 1];
        }
      }
      assert k in ids[1..];
      RoomItemsUpdate(ids[1..], locations, k, room);
      var m := locations[k := room];
      var head := if ids[0] in locations then multiset(locations[ids[0]].items) else multiset{};
      assert (ids[0] in m) == (ids[0] in locations);
      assert ids[0] in m ==> m[ids[0]] == locations[ids[0]];
      calc {
        RoomItems(ids, m) + multiset(locations[k].items);
        head + (RoomItems(ids[1..], m) + multiset(locations[k].items));
        head + (RoomItems(ids[1..], locations) + multiset(room.items));
        RoomItems(ids, locations) + multiset(room.items);
      }
    }
  }

  /** Replacing a room by one with the same items leaves the total alone. */
  lemma {:induction false} RoomItemsKeepItems(ids: seq<string>, locations: map<string, Location>, k: string, room: Location)
    requires k in locations && room.items == locations[k].items
    ensures RoomItems(ids, locations[k := room]) == RoomItems(ids, locations)
  {
    if ids != [] {
      RoomItemsKeepItems(ids[1..], locations, k, room);
    }
  }

  /** Cancelling a common part on both sides of a multiset equation. */
  lemma MultisetCancel(a: multiset<string>, b: multiset<string>, c: multiset<string>)
    requires a + c == b + c
    ensures a == b
  {
    forall x ensures a[x] == b[x] {
      assert (a + c)[x] == (b + c)[x];
    }
  }

  /** Each listed room's items are part of the total. */
  lemma {:induction false} RoomItemsInclude(ids: seq<string>, locations: map<string, Location>, k: string)
    requires k in ids && k in locations
    ensures multiset(locations[k].items) <= RoomItems(ids, locations)
  {
    if ids[0] != k {
      RoomItemsInclude(ids[1..], locations, k);
    }
  }
}
