# Grue text-adventure engine, modelled in Dafny

This project models the core of the Grue engine: the `GrueEngine` class, which owns one game
session. Its state is:

- the locations (each with its exits, the item ids lying there, the characters present and a
  one-way `first_visit` flag);
- the item and character registries;
- the player record (current location, inventory, capacity, move counter);
- a `running` flag.

Each command line, already stripped and lower-cased, turns into one reply. Along the way the
engine counts the move, may move the player, may move an item between a room and the
inventory, or may stop the game.

The modules follow the structure of the engine:

- `Text` covers the string behaviour the engine relies on: ASCII `lower()`, the substring test,
  `join` and string repetition.
- `World` holds the data model. It also states the consistency rules every command keeps:
  - every reference resolves;
  - the inventory stays within its capacity;
  - no item id is held by two containers, or twice by one.
- `Resolve` holds `get_item_id_from_name`, `examine` and `talk_to`. All three are first-match
  searches over ordered id lists, written as recursive functions. The item registry is an
  ordered list of ids plus a map, because registry order decides ties.
- `Render` holds the inventory sentence of `show_inventory` and the lines `display_location`
  prints.
- `Commands` holds the keyword and prefix dispatch of `process_command`, as a parser from the
  input line to a command.
- `Actions` holds the state transitions of `move_player`, `take_item`, `drop_item` and
  `process_command`. Each is a function from a state to the next state and the reply. The
  engine's properties are proved about these functions.
- `Engine` holds the class `GrueEngine`, whose fields the methods update in place, as the
  Python engine does. Each mutating method is proved to produce exactly the state and reply that
  the matching `Actions` function describes, and to keep the world valid.
- `Crystalia` is the Crystalia Manor content pack as a concrete world. Against it, the session
  `north`, `take <old key>`, `drop <old key>`, `south` is followed command by command through
  `process_command`, with the key named in any letter case.

Two facts about the code shape what the model states:

- **The session round trip is not exact.** After `north`, `take old key`, `drop old key`,
  `south`, the state is not the starting state plus four moves. `move_player` clears the
  `first_visit` flag of every room it enters (grue_engine.py:151-152), so the corridor and the
  entrance both lose it. `Crystalia.KeyRoundTrip` states the final state as the code produces it.
- **An item lies in at most one container.** Crystalia registers `locked_door`
  (crystalia_manor.py:62-72), but no room lists it (crystalia_manor.py:4-36). So the invariant
  modelled is "at most one container": the multiset of held ids has no repeats. No command
  moves an item out of play or into it.
- **The visible-items line.** For three or more visible items, `display_location` writes the
  article only before the first and the last item: "You can see a X, Y and a Z here."
  `show_inventory` writes "a X, a Y and a Z". Both are modelled as written.

## Model

| member | source | states |
|---|---|---|
| Text.Lower | grue_engine.py:179 | `lower()` keeps the length and lower-cases each ASCII letter, position by position |
| Text.Contains | grue_engine.py:184 | the substring test; ContainsAt states its meaning and ContainsSelf one consequence |
| Text.ContainsAt | grue_engine.py:184 | the substring test `q in name` holds exactly when q occurs as a contiguous slice of name at some offset |
| Text.ContainsSelf | grue_engine.py:184 | every string contains itself |
| Text.Join | grue_engine.py:58 | `sep.join(parts)`; JoinedArticles and JoinedBare state what it builds for the two item lists |
| Text.Repeat | grue_engine.py:53 | `"-" * n` has length n and holds only that character |
| World.Remove | grue_engine.py:210 | `list.remove(x)` shortens the list by one and removes exactly one x from its multiset; RemoveFirst states which one |
| World.FirstIndex | grue_engine.py:210 | the position `list.remove` deletes: an index holding x with no x before it |
| World.RemoveAtFirst | grue_engine.py:210 | removing x deletes exactly the entry at its first index and keeps the rest in order |
| World.RemoveFirst | grue_engine.py:210 | there is a position i holding x, with no x before it, such that the result is the list before i followed by the list after i |
| World.RemoveAppended | grue_engine.py:210-211 | removing an element just appended to a list not holding it gives back the list |
| World.ExitTarget | grue_engine.py:145-146 | the exit lookup fails exactly when no exit has the direction; otherwise it returns the target of an exit with that direction |
| World.Directions | grue_engine.py:58 | the exit keys in order, one per exit |
| World.ExitUnique | grue_engine.py:145-146 | with distinct directions, the lookup of an exit's direction returns that exit's own target |
| Resolve.FirstMatch | grue_engine.py:178-180 | the loop with early return yields the first matching position, or none exactly when nothing matches |
| Resolve.ItemNames | grue_engine.py:164 | the names of the given item ids, position by position |
| Resolve.CharacterNames | grue_engine.py:247-249 | the names of the given character ids, position by position |
| Resolve.WholeIsPartial | grue_engine.py:179-185 | a case-insensitive whole-name match is also a substring match |
| Resolve.ResolveItem | grue_engine.py:171-187 | an exact id wins; otherwise the first registry entry whose name equals the query ignoring case; otherwise the first whose name contains it; none exactly when no id is the query and no name contains it |
| Resolve.Examine | grue_engine.py:231-253 | the description of the first match among inventory items, then room items, then room characters (each searched only when the earlier ones have no match); otherwise the not-found reply |
| Resolve.TalkTo | grue_engine.py:255-271 | `<Name>: "<greeting>"` for the first character in the room whose name contains the query; otherwise the no-one-here reply |
| Render.ShowInventory | grue_engine.py:159-169 | `show_inventory`; InventorySentence states its reply for every inventory |
| Render.ArticleList | grue_engine.py:167-168 | the "a X, a Y and a Z" list; JoinedArticles states it equals the source's join |
| Render.WithArticle | grue_engine.py:168 | each name prefixed with "a ", position by position |
| Render.JoinedArticles | grue_engine.py:168-169 | the source's join of "a X" parts plus " and a Z" is the list "a X, a Y and a Z" |
| Render.InventorySentence | grue_engine.py:159-169 | the fixed message for an empty inventory; otherwise "You are carrying " plus every carried name, in order, as "a X, a Y and a Z" |
| Render.VisibleNames | grue_engine.py:64-65 | at most one name per item id, and empty exactly when no item in the room is visible; the filter itself is stated by the three lemmas below |
| Render.VisibleNamesFilter | grue_engine.py:64-65 | a name is in the list exactly when some listed id is visible and has that name |
| Render.VisibleNamesAppend | grue_engine.py:64-65 | the filter keeps order: filtering two lists joined is filtering each and joining |
| Render.VisibleNamesOne | grue_engine.py:64-65 | a single id yields its name when visible and nothing otherwise |
| Render.CharacterLines | grue_engine.py:74-77 | one "There is <name> here." line per character present, in order |
| Render.BareList | grue_engine.py:70 | the "X, Y and a Z" list of `display_location`; JoinedBare states it equals the source's join |
| Render.ItemsLine | grue_engine.py:66-71 | the visible-items line; RoomViewLines states it for no, one and several items |
| Render.RoomView | grue_engine.py:47-77 | the lines `display_location` prints for a room; RoomViewLines states each of them |
| Render.LocationView | grue_engine.py:47-77 | the view of the player's current room, defined for every valid world; RoomViewLines states its lines |
| Render.JoinedBare | grue_engine.py:70 | the joiner for two or more visible items yields "X, Y and a Z" |
| Render.RoomViewLines | grue_engine.py:47-77 | the room view is header, as many dashes as the name has characters, description, the exits or no-exits line, one items line when something is visible, then one line per character |
| Commands.Parse | grue_engine.py:85-139 | the dispatch chain in its order; QuitWords, DirectionForms, GoPassesRest, TakeForms, DropForm, LookAtExamines and TalkToForm state its branches |
| Commands.Canonical | grue_engine.py:99-103 | the shorthand table; DirectionForms states that each shorthand maps to its full direction |
| Commands.QuitWords | grue_engine.py:85-87 | a line parses as quit exactly when it is "quit", "exit" or "bye" |
| Commands.DirectionForms | grue_engine.py:93-104 | a direction, its one-letter shorthand and `go <direction>` all parse to a move with the full direction name |
| Commands.GoPassesRest | grue_engine.py:93-95 | `go <rest>` hands the rest of the line to the move unchanged |
| Commands.TakeForms | grue_engine.py:109-111 | `take X` and `get X` both parse to take X |
| Commands.DropForm | grue_engine.py:113-115 | `drop X` parses to drop X |
| Commands.LookAtExamines | grue_engine.py:117-119 | `look at X` escapes the exact `look` keyword and, like `examine X`, parses to examine X |
| Commands.TalkToForm | grue_engine.py:121-123 | `talk to X` parses to talk to X |
| Actions.Counted | grue_engine.py:82 | the move count; CountedValid and ProcessCountsAndStops state what it changes |
| Actions.MovePlayer | grue_engine.py:141-157 | `move_player`; MoveBlocked, MoveEnters, MovePreservesValid and MoveKeepsCounters state its contract |
| Actions.Enter | grue_engine.py:147-152 | entering a room; MoveEnters and EnterPreservesValid state its effect |
| Actions.Pick | grue_engine.py:210-211 | the in-room half of a take; TakeSucceeds, PickPreservesValid and PickThenPut state its effect |
| Actions.TakeItem | grue_engine.py:189-213 | `take_item`; TakeRefusals, TakeEffect, TakeSucceeds, TakePreservesValid and TakeKeepsCounters state its contract |
| Actions.Put | grue_engine.py:225-227 | the in-room half of a drop; DropSucceeds, PutPreservesValid and PickThenPut state its effect |
| Actions.DropItem | grue_engine.py:215-229 | `drop_item`; DropEffect, DropSucceeds, DropPreservesValid and DropKeepsCounters state its contract |
| Actions.Dispatch | grue_engine.py:85-139 | the branches after the count; DispatchCountsAndStops, DispatchPreservesValid and ProcessReadOnly state its contract |
| Actions.Process | grue_engine.py:79-139 | `process_command`; ProcessCountsAndStops, ProcessPreservesValid, ProcessDirection, ProcessTake and ProcessDrop state its contract |
| Actions.CountedValid | grue_engine.py:82 | counting a move keeps the world valid and moves no item |
| Actions.MoveBlocked | grue_engine.py:145-157 | without an exit in that direction the state is unchanged and the reply is "You can't go <d> from here." |
| Actions.MoveEnters | grue_engine.py:145-155 | through an exit, the player stands at exactly its target; that room's first-visit flag is cleared; no other room changes; the reply is "You go <d> to <name>." |
| Actions.MovePreservesValid | grue_engine.py:141-157 | a move keeps the world valid and every item where it was |
| Actions.EnterPreservesValid | grue_engine.py:147-152 | entering a room keeps the world valid and every item where it was |
| Actions.TakeRefusals | grue_engine.py:191-207 | the refusals in their order (not found or not here, not portable, inventory full), each leaving the state unchanged with its own reply |
| Actions.TakeEffect | grue_engine.py:189-213 | a take either changes nothing, or moves one resolved, portable item out of the current room to the end of the inventory below capacity, leaving every other room alone |
| Actions.TakeSucceeds | grue_engine.py:209-213 | when every check passes, take removes the id from the room and appends it to the inventory with "You take the <name>." |
| Actions.PickPreservesValid | grue_engine.py:210-211 | moving an item from the room to a not-full inventory keeps the world valid and the multiset of held ids |
| Actions.TakePreservesValid | grue_engine.py:189-213 | every take keeps the world valid and the multiset of held ids |
| Actions.DropEffect | grue_engine.py:215-229 | a drop succeeds exactly when the resolved id is carried; it then moves that id from the inventory to the end of the current room's list; otherwise nothing changes and the reply is "You don't have a <name>." |
| Actions.DropSucceeds | grue_engine.py:222-229 | a carried resolved id is removed from the inventory and appended to the room with "You drop the <name>." |
| Actions.PutPreservesValid | grue_engine.py:225-227 | moving a carried item to the current room keeps the world valid and the multiset of held ids |
| Actions.DropPreservesValid | grue_engine.py:215-229 | every drop keeps the world valid and the multiset of held ids |
| Actions.HeldOnce | grue_engine.py:198-211 | an item lying in the current room of a valid world lies there once and is not carried |
| Actions.PickThenPut | grue_engine.py:210-227 | taking then dropping in the same room restores the inventory exactly, the room's list as a permutation and every other room unchanged |
| Actions.PickThenPutLast | grue_engine.py:210-227 | when the item was the room's last entry, the take-then-drop round trip restores the very same state |
| Actions.TakeThenDrop | grue_engine.py:189-229 | after a successful `take X`, `drop X` drops the very id taken, and the result is the round trip of PickThenPut |
| Actions.ProcessCountsAndStops | grue_engine.py:82-87 | every command adds exactly one move, and only "quit", "exit" and "bye" stop the game |
| Actions.DispatchCountsAndStops | grue_engine.py:85-139 | no branch touches the move counter, and only quit clears the running flag |
| Actions.MoveKeepsCounters | grue_engine.py:141-157 | a move changes neither the move counter nor the running flag |
| Actions.TakeKeepsCounters | grue_engine.py:189-213 | a take changes neither the move counter nor the running flag |
| Actions.DropKeepsCounters | grue_engine.py:215-229 | a drop changes neither the move counter nor the running flag |
| Actions.ProcessDirection | grue_engine.py:97-104 | a bare direction and its shorthand both reach the move with the full direction name, after the count |
| Actions.ProcessTake | grue_engine.py:109-111 | `take X` and `get X` both reach the take of X, after the count |
| Actions.ProcessDrop | grue_engine.py:113-115 | `drop X` reaches the drop of X, after the count |
| Actions.ProcessReadOnly | grue_engine.py:89-139 | look, inventory, examine, talk to, help and unrecognised lines change only the move counter; an unrecognised line gets the fixed "I don't understand" reply |
| Actions.DispatchPreservesValid | grue_engine.py:85-139 | every branch keeps the world valid and the multiset of held ids |
| Actions.ProcessPreservesValid | grue_engine.py:79-139 | every command keeps the world valid and the multiset of item ids across rooms and inventory |
| Engine.GrueEngine.constructor | grue_engine.py:4-20 | the engine takes the pack's registries and player record, is valid and is not running |
| Engine.GrueEngine.Start | grue_engine.py:28-30 | the session is running and nothing else changes |
| Engine.GrueEngine.MovePlayer | grue_engine.py:141-157 | the in-place update yields exactly the state and reply of Actions.MovePlayer and keeps the world valid |
| Engine.GrueEngine.TakeItem | grue_engine.py:189-213 | the in-place update yields exactly the state and reply of Actions.TakeItem and keeps the world valid |
| Engine.GrueEngine.DropItem | grue_engine.py:215-229 | the in-place update yields exactly the state and reply of Actions.DropItem and keeps the world valid |
| Engine.GrueEngine.ProcessCommand | grue_engine.py:79-139 | counting the move and then running the recognised branch yields exactly the state and reply of Actions.Process and keeps the world valid |
| Engine.GrueEngine.Execute | grue_engine.py:85-139 | each branch of the dispatch yields exactly the state and reply of Actions.Dispatch and keeps the world valid |
| Crystalia.RegistryWellFormed | crystalia_manor.py:38-92 | the manor's registries have distinct ids and an item entry for every listed id |
| Crystalia.RoomsWellFormed | crystalia_manor.py:4-36 | the manor's exits lead to its rooms, and only registered items and characters lie in them |
| Crystalia.RoomItemsOfThree | crystalia_manor.py:4-36 | the items of the manor's three rooms are the items of each, counted together |
| Crystalia.ManorHeld | crystalia_manor.py:22-33 | the key is held in exactly one place (the corridor or the inventory) and the flower in the garden; the door lies nowhere |
| Crystalia.ManorValid | crystalia_manor.py:4-102 | every manor state of the session's shape is a valid world |
| Crystalia.KeyName | crystalia_manor.py:39-73 | the item names in registry order, and the key's name lower-cased |
| Crystalia.KeyByName | crystalia_manor.py:40-41 | the key's name, in any letter case, resolves to `old_key` |
| Crystalia.KeyByFragment | crystalia_manor.py:40-41 | "key", in any letter case, resolves to `old_key` by the substring tier |
| Crystalia.CountedManor | grue_engine.py:82 | counting a move in a manor state advances only its counter |
| Crystalia.NorthOfStart | crystalia_manor.py:5-24 | the corridor lies north of the entrance, and entering it clears its first-visit flag |
| Crystalia.SouthOfHallway | crystalia_manor.py:5-24 | the entrance lies south of the corridor, and entering it clears its first-visit flag |
| Crystalia.KeyMoves | crystalia_manor.py:22 | taking the key from the corridor and putting it back give the expected manor states |
| Crystalia.GoNorth | crystalia_manor.py:5-24 | moving north from the entrance reaches the corridor with "You go north to Main Corridor." |
| Crystalia.GoSouth | crystalia_manor.py:5-24 | moving south from the corridor reaches the entrance with "You go south to Entrance Hall." |
| Crystalia.TakeKey | crystalia_manor.py:15-25 | taking the key in the corridor puts it in the inventory with "You take the Old Key." |
| Crystalia.DropKey | crystalia_manor.py:15-25 | dropping the carried key in the corridor puts it back with "You drop the Old Key." |
| Crystalia.LineNorth | grue_engine.py:97-104 | the line "north" reaches the move north after the count |
| Crystalia.LineSouth | grue_engine.py:97-104 | the line "south" reaches the move south after the count |
| Crystalia.StepNorth | crystalia_manor.py:5-24 | `north` from the fresh start reaches the corridor, counting one move |
| Crystalia.StepTake | crystalia_manor.py:15-25 | `take <old key>` in the corridor picks up the key, counting one move |
| Crystalia.StepDrop | crystalia_manor.py:15-25 | `drop <old key>` in the corridor puts the key back, counting one move |
| Crystalia.StepSouth | crystalia_manor.py:5-24 | `south` from the corridor reaches the entrance, counting one move |
| Crystalia.SessionEnd | crystalia_manor.py:4-36 | the end state differs from the start only in the counter (up by four) and the two first-visit flags |
| Crystalia.KeyRoundTrip | crystalia_manor.py:4-25 | north, take, drop, south from the fresh manor: every intermediate state is valid; the player is back at the entrance with the key in the corridor and the inventory empty; only the counter and the two rooms' first-visit flags have changed |

## Left out

- The console loop of `start_game` (grue_engine.py:31-38), `display_intro` and the `print`
  calls are console I/O. `display_location` is modelled as the list of lines it prints
  (`Render.LocationView`). Reading input and stripping and lower-casing it happen outside the
  model: `process_command` receives the finished line.
- `load_game` aliases the pack's module-level dictionaries and shallow-copies the player. The
  model gives the engine its own copy of the state (the constructor), and does not model the
  sharing between the pack and the engine.
- `game_info`, `current_game` and `list_available_games` (a hard-coded list) are left out.
  `main.py` is not part of this model: it is a menu, `input` parsing and dynamic import.
- The `dark_dungeon` content pack is not part of this model. It is static data like
  Crystalia Manor, which serves as the concrete fixture.
- Unread data is not modelled. This covers item `actions` and `properties`, and character
  `friendly`, `inventory` and `properties`. Of the dialogue table, only `greeting` is read, so
  only it is modelled.
- Text.Lower: `str.lower()` is modelled on ASCII letters only; other characters are left as
  they are.
- A missing dictionary key would make the Python engine raise `KeyError`, for example an exit to an
  unknown room or an unregistered item id in a room. The model excludes these states through
  `World.Valid`, which every operation requires and preserves.
- The player's `max_inventory` and `moves` are unbounded integers. Python integers do not
  wrap, so nothing is lost.
