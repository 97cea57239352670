/** The command palette: the commands whose title contains the search
    term, compared case-insensitively, and a selection moved by the arrow
    keys. */
module CommandPalette {
  import opened Wrappers
  import opened Text
  import opened ConfigTypes
  import opened Defaults

  /** `config?.commandPalette?.commands || defaultConfig...commands`: a
      commands array, even an empty one, is used as it is. */
  function CommandsOf(c: Config): (commands: seq<Command>)
    ensures c.commandPalette.Some? && c.commandPalette.value.commands.Some? ==>
              commands == c.commandPalette.value.commands.value
    ensures c.commandPalette.None? || c.commandPalette.value.commands.None? ==> commands == DefaultCommands
  {
    if c.commandPalette.Some? && c.commandPalette.value.commands.Some? then c.commandPalette.value.commands.value
    else DefaultCommands
  }

  /** A command is listed when its lowered title contains the lowered term. */
  predicate Matches(command: Command, term: string) {
    Contains(Lower(command.title), Lower(term))
  }

  /** `filteredCommands`: the listed commands, in their original order. */
  function Filter(commands: seq<Command>, term: string): (r: seq<Command>)
    ensures |r| <= |commands|
    ensures forall x :: x in r <==> x in commands && Matches(x, term)
  {
    if commands == [] then []
    else if Matches(commands[0], term) then [commands[0]] + Filter(commands[1..], term)
    else Filter(commands[1..], term)
  }

  /** The filter keeps the original order: filtering a concatenation is
      concatenating the filtered parts. With the membership condition of
      `Filter` this determines the result. */
  lemma {:induction false} FilterAppend(a: seq<Command>, b: seq<Command>, term: string)
    ensures Filter(a + b, term) == Filter(a, term) + Filter(b, term)
    decreases |a|
  {
    if a != [] {
      assert (a + b)[1..] == a[1..] + b;
      FilterAppend(a[1..], b, term);
    } else {
      assert a + b == b;
    }
  }

  /** An empty search term lists every command. */
  lemma {:induction false} EmptyTermKeepsAll(commands: seq<Command>)
    ensures Filter(commands, "") == commands
    decreases |commands|
  {
    if commands != [] {
      ContainsEmpty(Lower(commands[0].title));
      EmptyTermKeepsAll(commands[1..]);
    }
  }

  /** The search ignores the case of ASCII letters in the term. */
  lemma FilterIgnoresTermCase(commands: seq<Command>, term: string)
    ensures Filter(commands, Lower(term)) == Filter(commands, term)
  {
    LowerIdempotent(term);
    assert forall x :: Matches(x, Lower(term)) <==> Matches(x, term);
    FilterSameMatches(commands, Lower(term), term);
  }

  /** Two terms that list the same commands give the same filter. */
  lemma {:induction false} FilterSameMatches(commands: seq<Command>, t1: string, t2: string)
    requires forall x :: Matches(x, t1) <==> Matches(x, t2)
    ensures Filter(commands, t1) == Filter(commands, t2)
    decreases |commands|
  {
    if commands != [] {
      FilterSameMatches(commands[1..], t1, t2);
    }
  }

  /** Filtering again with the same term changes nothing. */
  lemma {:induction false} FilterIdempotent(commands: seq<Command>, term: string)
    ensures Filter(Filter(commands, term), term) == Filter(commands, term)
    decreases |commands|
  {
    if commands != [] {
      FilterIdempotent(commands[1..], term);
    }
  }

  /** The key handler's update of `selectedIndex` for a list of `len`
      commands: ArrowDown moves down unless on the last command, ArrowUp
      moves up unless on the first, other keys do nothing. */
  function NextIndex(key: string, len: int, i: int): (r: int)
    ensures key == "ArrowDown" ==> (if i < len - 1 then r == i + 1 else r == i)
    ensures key == "ArrowUp" ==> (if i > 0 then r == i - 1 else r == i)
    ensures key != "ArrowDown" && key != "ArrowUp" ==> r == i
  {
    if key == "ArrowDown" then (if i < len - 1 then i + 1 else i)
    else if key == "ArrowUp" then (if i > 0 then i - 1 else i)
    else i
  }

  /** One key press keeps an index inside `[0, len)`, and never makes an
      index negative. */
  lemma NextIndexInRange(key: string, len: int, i: int)
    ensures 0 <= i < len ==> 0 <= NextIndex(key, len, i) < len
    ensures 0 <= i ==> 0 <= NextIndex(key, len, i)
  {
  }

  /** The index after a run of key presses. */
  function Navigate(keys: seq<string>, len: int, i: int): int
    decreases |keys|
  {
    if keys == [] then i else Navigate(keys[1..], len, NextIndex(keys[0], len, i))
  }

  /** From the initial index 0 over a non-empty list, any run of key
      presses keeps the index inside the list. */
  lemma {:induction false} NavigateInRange(keys: seq<string>, len: int, i: int)
    requires 0 <= i < len
    ensures 0 <= Navigate(keys, len, i) < len
    decreases |keys|
  {
    if keys != [] {
      NextIndexInRange(keys[0], len, i);
      NavigateInRange(keys[1..], len, NextIndex(keys[0], len, i));
    }
  }

  /** Enough ArrowDown presses reach the last command and stay there. */
  lemma {:induction false} ArrowDownReachesLast(len: int, i: int, k: nat)
    requires 0 <= i < len && i + k >= len - 1
    ensures Navigate(seq(k, _ => "ArrowDown"), len, i) == len - 1
    decreases k
  {
    if k > 0 {
      var keys := seq(k, _ => "ArrowDown");
      assert keys[0] == "ArrowDown" && keys[1..] == seq(k - 1, _ => "ArrowDown");
      ArrowDownReachesLast(len, NextIndex("ArrowDown", len, i), k - 1);
    }
  }

  /** "New File" lists under "new". */
  lemma NewFileMatches()
    ensures Matches(DefaultCommands[0], "new")
  {
    var t := Lower(DefaultCommands[0].title);
    assert t[0] == 'n' && t[1] == 'e' && t[2] == 'w';
    assert Lower("new") == "new";
    assert t[..3] == "new";
  }

  /** "Open Project" does not list under "new": it has no `w`. */
  lemma OpenProjectDoesNotMatch()
    ensures !Matches(DefaultCommands[1], "new")
  {
    var t := Lower(DefaultCommands[1].title);
    assert Lower("new") == "new";
    assert forall k :: 0 <= k < |t| ==> t[k] != 'w';
    forall i
      ensures !OccursAt(t, "new", i)
    {
      if 0 <= i <= |t| - 3 {
        assert t[i..i + 3][2] == t[i + 2];
      }
    }
    ContainsAt(t, "new");
  }

  /** Narrowing the search does not reset the selection: with the
      built-in commands, the second selected, typing "new" lists one
      command and leaves the selection past its end, so no row is
      highlighted until ArrowUp is pressed. */
  lemma NarrowingLeavesSelectionPastEnd()
    ensures |Filter(DefaultCommands, "new")| == 1
    ensures NextIndex("ArrowDown", |Filter(DefaultCommands, "new")|, 1) == 1
    ensures NextIndex("ArrowUp", |Filter(DefaultCommands, "new")|, 1) == 0
  {
    NewFileMatches();
    OpenProjectDoesNotMatch();
    assert DefaultCommands[1..][1..] == [];
  }

  /** The palette's state: the search term and the selected index. */
  class CommandPaletteDemo {
    const commands: seq<Command>
    var searchTerm: string
    var selectedIndex: int

    /** The listed commands. */
    function Filtered(): seq<Command>
      reads this
    {
      Filter(commands, searchTerm)
    }

    /** The selection is never negative. */
    predicate Valid()
      reads this
    {
      selectedIndex >= 0
    }

    constructor (c: Config)
      ensures commands == CommandsOf(c)
      ensures searchTerm == "" && selectedIndex == 0
      ensures Filtered() == commands
      ensures Valid()
    {
      commands := CommandsOf(c);
      searchTerm := "";
      selectedIndex := 0;
      new;
      EmptyTermKeepsAll(commands);
    }

    /** Typing in the search field: only the term changes. */
    method SearchChange(value: string)
      modifies this
      requires Valid()
      ensures searchTerm == value && selectedIndex == old(selectedIndex)
      ensures Valid()
    {
      searchTerm := value;
    }

    /** A key press, against the current number of listed commands. */
    method KeyDown(key: string)
      modifies this
      requires Valid()
      ensures searchTerm == old(searchTerm)
      ensures selectedIndex == NextIndex(key, |Filtered()|, old(selectedIndex))
      ensures old(selectedIndex) < |Filtered()| ==> selectedIndex < |Filtered()|
      ensures Valid()
    {
      NextIndexInRange(key, |Filtered()|, selectedIndex);
      var len := |Filter(commands, searchTerm)|;
      if key == "ArrowDown" {
        selectedIndex := if selectedIndex < len - 1 then selectedIndex + 1 else selectedIndex;
      } else if key == "ArrowUp" {
        selectedIndex := if selectedIndex > 0 then selectedIndex - 1 else selectedIndex;
      }
    }
  }
}
