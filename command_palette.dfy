/** The command palette of the `src/` dashboard
    (src/components/dashboard/CommandPalette.tsx): a fixed list of commands
    filtered by a case-insensitive substring query, a selection moved with the
    arrow keys, Enter to run the selected command and Escape to close. The
    open flag and the active module live in the UI store; the query and the
    selected index are the component's own state. */
module CommandPalette {
  import opened Text
  import Sequences
  import opened UiStore

  datatype Command = Command(id: string, name: string, description: string, shortcut: string)

  const Commands: seq<Command> := [
    Command("dashboard", "Dashboard", "View main dashboard", "⌥1"),
    Command("markets", "Markets", "View market intelligence", "⌥2"),
    Command("log", "Engineering Log", "View system logs", "⌥3"),
    Command("networks", "Open Networks", "Browse network resources", "⌥4"),
    Command("tools", "Tools", "Access system tools", "⌥5"),
    Command("status", "System Status", "View system telemetry", "⌥6"),
    Command("about", "About", "System information", "")
  ]

  /** The command whose action shows an alert instead of switching module. */
  const AboutId: string := "about"

  predicate Matches(c: Command, query: string)
  {
    Contains(Lower(c.name), Lower(query)) || Contains(Lower(c.description), Lower(query))
  }

  /** `filteredCommands` */
  function Filtered(cmds: seq<Command>, query: string): (r: seq<Command>)
    ensures forall i :: 0 <= i < |r| ==> r[i] in cmds && Matches(r[i], query)
    ensures forall i :: 0 <= i < |cmds| && Matches(cmds[i], query) ==> cmds[i] in r
  {
    Sequences.Filter(cmds, (c: Command) => Matches(c, query))
  }

  /** An empty query matches every command: the empty string occurs in any name. */
  lemma EmptyQueryMatchesAll(cmds: seq<Command>)
    ensures Filtered(cmds, "") == cmds
  {
    forall i | 0 <= i < |cmds| ensures Matches(cmds[i], "") {
      assert OccursAt(Lower(cmds[i].name), "", 0);
    }
    Sequences.FilterAll(cmds, (c: Command) => Matches(c, ""));
  }

  /** An empty query lists every command, in declaration order. */
  lemma EmptyQueryListsAll()
    ensures Filtered(Commands, "") == Commands && |Filtered(Commands, "")| == 7
  {
    EmptyQueryMatchesAll(Commands);
  }

  /** What the palette shows and where its keys act: the store's open flag and
      active module, and the component's query and selected index. */
  datatype PaletteState = PaletteState(open: bool, query: string, selectedIndex: int, activeModule: string)

  /** The palette's invariant: the selection points into a non-empty list, or
      sits at 0 or -1 over an empty one. */
  predicate SelectionValid(cmds: seq<Command>, p: PaletteState)
  {
    var n := |Filtered(cmds, p.query)|;
    if n > 0 then 0 <= p.selectedIndex < n else p.selectedIndex == 0 || p.selectedIndex == -1
  }

  /** The new state and whether `preventDefault` was called. */
  datatype Outcome = Outcome(state: PaletteState, preventDefault: bool)

  function Min(a: int, b: int): int { if a < b then a else b }
  function Max(a: int, b: int): int { if a > b then a else b }

  /** Typing into the search box; the effect on `[searchQuery]` resets the
      selection whenever the query actually changes. */
  function SetQuery(cmds: seq<Command>, p: PaletteState, q: string): (r: PaletteState)
    ensures r.query == q && r.open == p.open && r.activeModule == p.activeModule
    ensures q != p.query ==> r.selectedIndex == 0
    ensures q == p.query ==> r == p
    ensures SelectionValid(cmds, p) ==> SelectionValid(cmds, r)
  {
    p.(query := q, selectedIndex := if q != p.query then 0 else p.selectedIndex)
  }

  /** `executeCommand`: switch to the command's module (except "about"), close
      the palette and clear the query. */
  function Execute(cmds: seq<Command>, p: PaletteState, id: string): (r: PaletteState)
    ensures !r.open && r.query == ""
    ensures id == AboutId ==> r.activeModule == p.activeModule
    ensures id != AboutId ==> r.activeModule == id
    ensures r.selectedIndex == if p.query == "" then p.selectedIndex else 0
    ensures SelectionValid(cmds, p) ==> SelectionValid(cmds, r)
  {
    var m := if id == AboutId then p.activeModule else id;
    SetQuery(cmds, p.(open := false, activeModule := m), "")
  }

  /** The palette's `keydown` listener. */
  function KeyDown(cmds: seq<Command>, p: PaletteState, key: string): (r: Outcome)
    ensures !p.open ==> r == Outcome(p, false)
    ensures SelectionValid(cmds, p) ==> SelectionValid(cmds, r.state)
    ensures r.preventDefault <==> p.open && key in {"ArrowDown", "ArrowUp", "Enter"}
    ensures p.open && key == "ArrowDown" ==>
      var n := |Filtered(cmds, p.query)|;
      r.state == p.(selectedIndex := if p.selectedIndex + 1 <= n - 1 then p.selectedIndex + 1 else n - 1)
    ensures p.open && key == "ArrowUp" ==>
      r.state == p.(selectedIndex := if p.selectedIndex - 1 >= 0 then p.selectedIndex - 1 else 0)
    ensures p.open && key == "Enter" ==>
      var f := Filtered(cmds, p.query);
      r.state == if 0 <= p.selectedIndex < |f| then Execute(cmds, p, f[p.selectedIndex].id) else p
    ensures p.open && key == "Escape" ==> r.state == p.(open := false)
    ensures !(key in {"ArrowDown", "ArrowUp", "Enter", "Escape"}) ==> r.state == p
  {
    if !p.open then Outcome(p, false)
    else
      var f := Filtered(cmds, p.query);
      if key == "ArrowDown" then Outcome(p.(selectedIndex := Min(p.selectedIndex + 1, |f| - 1)), true)
      else if key == "ArrowUp" then Outcome(p.(selectedIndex := Max(p.selectedIndex - 1, 0)), true)
      else if key == "Enter" then
        Outcome(if 0 <= p.selectedIndex < |f| then Execute(cmds, p, f[p.selectedIndex].id) else p, true)
      else if key == "Escape" then Outcome(p.(open := false), false)
      else Outcome(p, false)
  }

  /** A click on the backdrop closes the palette and keeps query and selection. */
  function Dismissed(p: PaletteState): (r: PaletteState)
    ensures !r.open && r.query == p.query && r.selectedIndex == p.selectedIndex
    ensures r.activeModule == p.activeModule
  {
    p.(open := false)
  }

  /** Hovering an entry selects it. */
  function Hover(cmds: seq<Command>, p: PaletteState, index: int): (r: PaletteState)
    requires 0 <= index < |Filtered(cmds, p.query)|
    ensures SelectionValid(cmds, r) && r.selectedIndex == index
    ensures r.(selectedIndex := p.selectedIndex) == p
  {
    p.(selectedIndex := index)
  }

  /** Pressing ArrowDown `k` times in a row. */
  function ArrowDownTimes(cmds: seq<Command>, p: PaletteState, k: nat): PaletteState
    decreases k
  {
    if k == 0 then p else ArrowDownTimes(cmds, KeyDown(cmds, p, "ArrowDown").state, k - 1)
  }

  /** ArrowDown never wraps: from any valid selection on a non-empty list,
      pressing it at least as often as there are entries after the selection
      leaves the last entry selected. */
  lemma {:induction false} ArrowDownStopsAtLast(cmds: seq<Command>, p: PaletteState, k: nat)
    requires p.open && SelectionValid(cmds, p) && |Filtered(cmds, p.query)| > 0
    requires k >= |Filtered(cmds, p.query)| - 1 - p.selectedIndex
    ensures ArrowDownTimes(cmds, p, k).selectedIndex == |Filtered(cmds, p.query)| - 1
    ensures ArrowDownTimes(cmds, p, k).query == p.query && ArrowDownTimes(cmds, p, k).open
    decreases k
  {
    if k > 0 {
      ArrowDownStopsAtLast(cmds, KeyDown(cmds, p, "ArrowDown").state, k - 1);
    }
  }

  /** ArrowDown on an empty list moves the selection to -1, and Enter then
      does nothing: the palette stays open. */
  lemma ArrowDownOnEmptyList(cmds: seq<Command>, p: PaletteState)
    requires p.open && SelectionValid(cmds, p) && |Filtered(cmds, p.query)| == 0
    ensures KeyDown(cmds, p, "ArrowDown").state.selectedIndex == -1
    ensures KeyDown(cmds, KeyDown(cmds, p, "ArrowDown").state, "Enter").state.open
  {
  }

  /** Escape closes without clearing: reopening shows the old query and the
      old selection. */
  lemma ReopenKeepsQueryAndSelection(cmds: seq<Command>, p: PaletteState)
    requires p.open
    ensures var closed := KeyDown(cmds, p, "Escape").state;
      !closed.open && closed.(open := true) == p
  {
  }

  /** The component over the shared store. */
  class Palette {
    const commands: seq<Command>
    const store: UIStore
    var query: string
    var selectedIndex: int

    function View(): PaletteState
      reads this, store
    {
      PaletteState(store.commandPaletteOpen, query, selectedIndex, store.activeModule)
    }

    predicate Valid()
      reads this, store
    {
      store.Valid() && SelectionValid(commands, View())
    }

    constructor (s: UIStore)
      requires s.Valid()
      ensures commands == Commands && store == s && query == "" && selectedIndex == 0
      ensures Valid()
    {
      commands := Commands;
      store := s;
      query := "";
      selectedIndex := 0;
      new;
      EmptyQueryMatchesAll(commands);
      var v := View();
      assert v.query == "" && v.selectedIndex == 0;
      assert |Filtered(commands, v.query)| > 0;
    }

    /** `setSearchQuery` followed by the reset effect. */
    method SetSearchQuery(q: string)
      requires Valid()
      modifies this
      ensures Valid()
      ensures View() == SetQuery(commands, old(View()), q)
    {
      if q != query {
        selectedIndex := 0;
      }
      query := q;
    }

    method ExecuteCommand(id: string)
      requires Valid()
      modifies this, store
      ensures Valid()
      ensures View() == Execute(commands, old(View()), id)
      ensures store.State() == old(store.State()).(commandPaletteOpen := View().open, activeModule := View().activeModule)
    {
      if id != AboutId {
        store.SetActiveModule(id);
      }
      store.SetCommandPaletteOpen(false);
      SetSearchQuery("");
    }

    /** The palette's `keydown` listener. */
    method HandleKeyDown(key: string) returns (preventDefault: bool)
      requires Valid()
      modifies this, store
      ensures Valid()
      ensures Outcome(View(), preventDefault) == KeyDown(commands, old(View()), key)
      ensures store.State() == old(store.State()).(commandPaletteOpen := View().open, activeModule := View().activeModule)
    {
      preventDefault := false;
      if !store.commandPaletteOpen {
        return;
      }
      if key == "ArrowDown" {
        preventDefault := true;
        SelectNext();
      } else if key == "ArrowUp" {
        preventDefault := true;
        SelectPrevious();
      } else if key == "Enter" {
        preventDefault := true;
        RunSelected();
      } else if key == "Escape" {
        Dismiss();
      }
    }

    /** ArrowDown: one entry further, stopping at the last. */
    method SelectNext()
      requires Valid() && store.commandPaletteOpen
      modifies this
      ensures Valid()
      ensures Outcome(View(), true) == KeyDown(commands, old(View()), "ArrowDown")
    {
      var f := Filtered(commands, query);
      selectedIndex := Min(selectedIndex + 1, |f| - 1);
    }

    /** ArrowUp: one entry back, stopping at the first. */
    method SelectPrevious()
      requires Valid() && store.commandPaletteOpen
      modifies this
      ensures Valid()
      ensures Outcome(View(), true) == KeyDown(commands, old(View()), "ArrowUp")
    {
      selectedIndex := Max(selectedIndex - 1, 0);
    }

    /** Enter: run the selected command, if the selection points at one. */
    method RunSelected()
      requires Valid() && store.commandPaletteOpen
      modifies this, store
      ensures Valid()
      ensures Outcome(View(), true) == KeyDown(commands, old(View()), "Enter")
      ensures store.State() == old(store.State()).(commandPaletteOpen := View().open, activeModule := View().activeModule)
    {
      var f := Filtered(commands, query);
      if 0 <= selectedIndex < |f| {
        ExecuteCommand(f[selectedIndex].id);
      }
    }

    /** The backdrop's `onClick`. */
    method Dismiss()
      requires Valid()
      modifies store
      ensures Valid()
      ensures View() == Dismissed(old(View()))
      ensures store.State() == old(store.State()).(commandPaletteOpen := false)
    {
      store.SetCommandPaletteOpen(false);
    }

    /** An entry's `onMouseEnter`. */
    method HoverEntry(index: int)
      requires Valid() && 0 <= index < |Filtered(commands, query)|
      modifies this
      ensures Valid()
      ensures View() == Hover(commands, old(View()), index)
    {
      selectedIndex := index;
    }
  }
}
