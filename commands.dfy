/** The keyword and prefix dispatch of `process_command`, as a parser from
    the (already stripped and lower-cased) input line to a command. */
module Commands {

  datatype Command =
    | Quit
    | Look
    | Go(direction: string)
    | Inventory
    | Take(itemName: string)
    | Drop(itemName: string)
    | Examine(target: string)
    | TalkTo(characterName: string)
    | Help
    | Unknown

  /** The shorthand table of `process_command`: a one-letter direction maps
      to its full name, every other word to itself (`dict.get(word, word)`). */
  function Canonical(word: string): string {
    if word == "n" then "north"
    else if word == "s" then "south"
    else if word == "e" then "east"
    else if word == "w" then "west"
    else if word == "u" then "up"
    else if word == "d" then "down"
    else word
  }

  /** The if/elif chain of `process_command`, in the source's order; the
      argument of a prefix command is the rest of the line after the
      prefix, unmodified. */
  function Parse(command: string): Command {
    if command in ["quit", "exit", "bye"] then Quit
    else if command in ["look", "l"] then Look
    else if "go " <= command then Go(command[3..])
    else if command in ["north", "n", "south", "s", "east", "e", "west", "w", "up", "u", "down", "d"] then
      Go(Canonical(command))
    else if command in ["inventory", "i"] then Inventory
    else if "take " <= command then Take(command[5..])
    else if "get " <= command then Take(command[4..])
    else if "drop " <= command then Drop(command[5..])
    else if "examine " <= command || "look at " <= command then Examine(command[8..])
    else if "talk to " <= command then TalkTo(command[8..])
    else if command in ["help", "h", "?"] then Help
    else Unknown
  }

  /** Only the three quit words stop the game. */
  lemma QuitWords(command: string)
    ensures Parse(command) == Quit <==> command == "quit" || command == "exit" || command == "bye"
  {
  }

  /** The six directions with their one-letter shorthands. */
  const Shorthands: seq<(string, string)> :=
    [("n", "north"), ("s", "south"), ("e", "east"), ("w", "west"), ("u", "up"), ("d", "down")]

  /** A bare direction, its one-letter shorthand and the `go` form all move
      the same way, with the full direction name. */
  lemma DirectionForms(i: nat)
    requires i < |Shorthands|
    ensures Parse(Shorthands[i].0) == Parse(Shorthands[i].1) == Parse("go " + Shorthands[i].1)
         == Go(Shorthands[i].1)
  {
    var (short, full) := Shorthands[i];
    GoPassesRest(full);
    assert full[0] != "go "[0];
  }

  /** `go <rest>` hands the rest of the line to the move unchanged, even
      when it is not a direction. */
  lemma GoPassesRest(rest: string)
    ensures Parse("go " + rest) == Go(rest)
  {
    var c := "go " + rest;
    assert c[..3] == "go ";
    assert c[0] == 'g' && c[1] == 'o';
  }

  /** `take X` and `get X` are the same command. */
  lemma TakeForms(rest: string)
    ensures Parse("take " + rest) == Parse("get " + rest) == Take(rest)
  {
    var t := "take " + rest;
    var g := "get " + rest;
    assert t[..5] == "take " && g[..4] == "get ";
    assert t[0] == 't' && t[1] == 'a';
    assert g[0] == 'g' && g[1] == 'e' && g[2] == 't';
  }

  lemma DropForm(rest: string)
    ensures Parse("drop " + rest) == Drop(rest)
  {
    var c := "drop " + rest;
    assert c[..5] == "drop ";
    assert c[0] == 'd' && c[1] == 'r';
  }

  /** `look at X` is not captured by the exact `look` keyword and reaches the
      examine branch; both prefixes are eight characters long, so the same
      slice yields the target. */
  lemma LookAtExamines(rest: string)
    ensures Parse("look at " + rest) == Parse("examine " + rest) == Examine(rest)
  {
    var l := "look at " + rest;
    var x := "examine " + rest;
    assert l[..8] == "look at " && x[..8] == "examine ";
    assert l[0] == 'l' && l[4] == ' ' && x[0] == 'e' && x[1] == 'x';
  }

  lemma TalkToForm(rest: string)
    ensures Parse("talk to " + rest) == TalkTo(rest)
  {
    var c := "talk to " + rest;
    assert c[..8] == "talk to ";
    assert c[0] == 't' && c[1] == 'a' && c[2] == 'l';
  }
}
