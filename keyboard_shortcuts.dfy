/** The global keyboard shortcuts of the `src/` dashboard
    (src/hooks/use-keyboard-shortcuts.ts): Cmd/Ctrl+K toggles the command
    palette, Escape closes it, Alt+1..6 switch the active module. */
module KeyboardShortcuts {
  import opened Wrappers
  import opened UiStore

  /** The fields of a `KeyboardEvent` the handler reads. */
  datatype KeyEvent = KeyEvent(key: string, metaKey: bool, ctrlKey: bool, altKey: bool)

  /** The new store state and whether `preventDefault` was called. */
  datatype Outcome = Outcome(state: UIState, preventDefault: bool)

  /** The module an Alt+digit shortcut selects, if any. */
  function AltModule(key: string): (m: Option<string>)
    ensures m.Some? <==> key in {"1", "2", "3", "4", "5", "6"}
  {
    if key == "1" then Some("dashboard")
    else if key == "2" then Some("markets")
    else if key == "3" then Some("log")
    else if key == "4" then Some("networks")
    else if key == "5" then Some("tools")
    else if key == "6" then Some("status")
    else None
  }

  predicate IsPaletteToggle(ev: KeyEvent)
  {
    (ev.metaKey || ev.ctrlKey) && ev.key == "k"
  }

  /** The three checks of the handler, applied one after the other. */
  function OnKeyDown(s: UIState, ev: KeyEvent): (r: Outcome)
    ensures r.state.(commandPaletteOpen := s.commandPaletteOpen, activeModule := s.activeModule) == s
    ensures IsPaletteToggle(ev) ==> r.state.commandPaletteOpen == !s.commandPaletteOpen
    ensures ev.key == "Escape" ==> !r.state.commandPaletteOpen
    ensures !IsPaletteToggle(ev) && ev.key != "Escape" ==> r.state.commandPaletteOpen == s.commandPaletteOpen
    ensures ev.altKey && AltModule(ev.key).Some? ==> r.state.activeModule == AltModule(ev.key).value
    ensures !(ev.altKey && AltModule(ev.key).Some?) ==> r.state.activeModule == s.activeModule
    ensures r.preventDefault <==> IsPaletteToggle(ev) || (ev.altKey && AltModule(ev.key).Some?)
  {
    var s1 := if IsPaletteToggle(ev) then PaletteToggled(s) else s;
    var s2 := if ev.key == "Escape" && s1.commandPaletteOpen then s1.(commandPaletteOpen := false) else s1;
    var m := AltModule(ev.key);
    var s3 := if ev.altKey && m.Some? then s2.(activeModule := m.value) else s2;
    Outcome(s3, IsPaletteToggle(ev) || (ev.altKey && m.Some?))
  }

  /** Pressing Cmd/Ctrl+K twice restores the state. */
  lemma PaletteToggleTwice(s: UIState, ev: KeyEvent)
    requires IsPaletteToggle(ev)
    ensures OnKeyDown(OnKeyDown(s, ev).state, ev).state == s
  {
  }

  /** Only a lower-case "k" toggles: Cmd/Ctrl+Shift+K reports "K" and changes
      nothing. */
  lemma UpperCaseKIgnored(s: UIState, meta: bool, ctrl: bool, alt: bool)
    ensures OnKeyDown(s, KeyEvent("K", meta, ctrl, alt)) == Outcome(s, false)
  {
  }

  /** Escape on a closed palette changes nothing and never prevents the default. */
  lemma EscapeWhenClosed(s: UIState, ev: KeyEvent)
    requires ev.key == "Escape" && !s.commandPaletteOpen
    ensures OnKeyDown(s, ev) == Outcome(s, false)
  {
  }

  /** Alt+1..6 select the six modules in sidebar order. */
  lemma AltDigitModules()
    ensures AltModule("1") == Some("dashboard") && AltModule("2") == Some("markets")
    ensures AltModule("3") == Some("log") && AltModule("4") == Some("networks")
    ensures AltModule("5") == Some("tools") && AltModule("6") == Some("status")
    ensures AltModule("7") == None && AltModule("0") == None
  {
  }

  /** The `keydown` listener, driving the store through its actions. */
  method HandleKeyDown(store: UIStore, ev: KeyEvent) returns (preventDefault: bool)
    requires store.Valid()
    modifies store
    ensures store.Valid()
    ensures Outcome(store.State(), preventDefault) == OnKeyDown(old(store.State()), ev)
  {
    preventDefault := false;
    if (ev.metaKey || ev.ctrlKey) && ev.key == "k" {
      preventDefault := true;
      store.ToggleCommandPalette();
    }
    if ev.key == "Escape" {
      if store.commandPaletteOpen {
        store.SetCommandPaletteOpen(false);
      }
    }
    if ev.altKey {
      var m := AltModule(ev.key);
      if m.Some? {
        preventDefault := true;
        store.SetActiveModule(m.value);
      }
    }
  }
}
