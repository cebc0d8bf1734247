/** The zustand UI store of the `src/` dashboard (src/store/ui-store.ts): boot
    flags, the sidebar and command-palette flags, the active module, the uptime
    counter and the simulated telemetry. The store is one mutable object whose
    actions overwrite some of its fields; each action's effect on the whole
    state is a function on `UIState` snapshots. */
module UiStore {

  datatype UIState = UIState(
    isBooting: bool,
    bootComplete: bool,
    sidebarCollapsed: bool,
    commandPaletteOpen: bool,
    activeModule: string,
    uptime: int,
    packetsSent: int,
    networkIntegrity: real,
    trackersBlocked: int,
    systemTemp: real,
    lastMarketUpdate: int)

  /** The four `Math.random()` draws of one telemetry update, in the order the
      object literal evaluates them. */
  datatype TelemetryDraws = TelemetryDraws(packets: real, integrity: real, trackers: real, temp: real)

  predicate IsRandom(x: real) { 0.0 <= x < 1.0 }

  predicate ValidDraws(d: TelemetryDraws)
  {
    IsRandom(d.packets) && IsRandom(d.integrity) && IsRandom(d.trackers) && IsRandom(d.temp)
  }

  /** The part of the state written to local storage. */
  datatype Persisted = Persisted(sidebarCollapsed: bool, activeModule: string)

  /** The store as created; `now` stands for `Date.now()`. */
  function Initial(now: int): (s: UIState)
    ensures InBands(s)
    ensures s.isBooting && !s.bootComplete && !s.commandPaletteOpen && s.uptime == 0
    ensures Partialize(s) == Persisted(false, "dashboard")
    ensures s.lastMarketUpdate == now
  {
    UIState(
      isBooting := true,
      bootComplete := false,
      sidebarCollapsed := false,
      commandPaletteOpen := false,
      activeModule := "dashboard",
      uptime := 0,
      packetsSent := 1247893,
      networkIntegrity := 99.97,
      trackersBlocked := 4521,
      systemTemp := 42.0,
      lastMarketUpdate := now)
  }

  /** `Math.min(hi, Math.max(lo, x))` */
  function Clamp(lo: real, hi: real, x: real): (y: real)
    requires lo <= hi
    ensures lo <= y <= hi
    ensures lo <= x <= hi ==> y == x
  {
    if x < lo then lo else if x > hi then hi else x
  }

  /** The telemetry values stay inside their bands. */
  predicate InBands(s: UIState)
  {
    99.0 <= s.networkIntegrity <= 100.0 && 35.0 <= s.systemTemp <= 70.0
  }

  function SidebarToggled(s: UIState): (r: UIState)
    ensures r.sidebarCollapsed == !s.sidebarCollapsed
    ensures r.(sidebarCollapsed := s.sidebarCollapsed) == s
  {
    s.(sidebarCollapsed := !s.sidebarCollapsed)
  }

  function PaletteToggled(s: UIState): (r: UIState)
    ensures r.commandPaletteOpen == !s.commandPaletteOpen
    ensures r.(commandPaletteOpen := s.commandPaletteOpen) == s
  {
    s.(commandPaletteOpen := !s.commandPaletteOpen)
  }

  function UptimeIncremented(s: UIState): (r: UIState)
    ensures r.uptime - s.uptime == 1
    ensures r.(uptime := s.uptime) == s
  {
    s.(uptime := s.uptime + 1)
  }

  /** `updateTelemetry`: packets and trackers grow by a random whole amount,
      integrity and temperature take a bounded random step and are clamped. */
  function TelemetryUpdated(s: UIState, d: TelemetryDraws): (r: UIState)
    requires ValidDraws(d)
    ensures InBands(r)
    ensures s.packetsSent <= r.packetsSent <= s.packetsSent + 49
    ensures s.trackersBlocked <= r.trackersBlocked <= s.trackersBlocked + 2
    ensures InBands(s) ==> -0.05 <= r.networkIntegrity - s.networkIntegrity <= 0.05
    ensures InBands(s) ==> -1.0 <= r.systemTemp - s.systemTemp <= 1.0
    ensures r.(packetsSent := s.packetsSent, networkIntegrity := s.networkIntegrity,
               trackersBlocked := s.trackersBlocked, systemTemp := s.systemTemp) == s
  {
    var ni := s.networkIntegrity + (d.integrity - 0.5) * 0.1;
    var t := s.systemTemp + (d.temp - 0.5) * 2.0;
    s.(packetsSent := s.packetsSent + (d.packets * 50.0).Floor,
       networkIntegrity := Clamp(99.0, 100.0, ni),
       trackersBlocked := s.trackersBlocked + (d.trackers * 3.0).Floor,
       systemTemp := Clamp(35.0, 70.0, t))
  }

  /** `partialize`: only the sidebar flag and the active module are persisted. */
  function Partialize(s: UIState): (p: Persisted)
    ensures p == Persisted(s.sidebarCollapsed, s.activeModule)
  {
    Persisted(s.sidebarCollapsed, s.activeModule)
  }

  /** Rehydration by the persist middleware: the persisted fields are merged
      shallowly over the freshly created store, so persisting the result gives
      back what was stored. */
  function Rehydrate(p: Persisted, now: int): (s: UIState)
    ensures Partialize(s) == p
    ensures s.(sidebarCollapsed := false, activeModule := "dashboard") == Initial(now)
  {
    Initial(now).(sidebarCollapsed := p.sidebarCollapsed, activeModule := p.activeModule)
  }

  /** Whatever else a state holds, only its sidebar flag and module survive a
      reload. */
  lemma ReloadKeepsOnlyPersisted(s: UIState, now: int)
    ensures Rehydrate(Partialize(s), now).sidebarCollapsed == s.sidebarCollapsed
    ensures Rehydrate(Partialize(s), now).activeModule == s.activeModule
    ensures Rehydrate(Partialize(s), now).uptime == 0
    ensures !Rehydrate(Partialize(s), now).commandPaletteOpen
  {
  }

  lemma ToggleSidebarTwice(s: UIState)
    ensures SidebarToggled(SidebarToggled(s)) == s
  {
  }

  lemma ToggleCommandPaletteTwice(s: UIState)
    ensures PaletteToggled(PaletteToggled(s)) == s
  {
  }

  /** Telemetry updates never lower the packet and tracker counters, over any
      number of updates. */
  lemma {:induction false} TelemetryCountersMonotone(s: UIState, ds: seq<TelemetryDraws>)
    requires forall i :: 0 <= i < |ds| ==> ValidDraws(ds[i])
    ensures var r := TelemetryUpdates(s, ds);
      s.packetsSent <= r.packetsSent <= s.packetsSent + 49 * |ds|
      && s.trackersBlocked <= r.trackersBlocked <= s.trackersBlocked + 2 * |ds|
      && r.uptime == s.uptime && r.activeModule == s.activeModule
      && r.sidebarCollapsed == s.sidebarCollapsed && r.commandPaletteOpen == s.commandPaletteOpen
    decreases |ds|
  {
    if ds != [] {
      TelemetryCountersMonotone(TelemetryUpdated(s, ds[0]), ds[1..]);
    }
  }

  /** A run of telemetry ticks, one update per draw record. */
  function TelemetryUpdates(s: UIState, ds: seq<TelemetryDraws>): UIState
    requires forall i :: 0 <= i < |ds| ==> ValidDraws(ds[i])
    decreases |ds|
  {
    if ds == [] then s else TelemetryUpdates(TelemetryUpdated(s, ds[0]), ds[1..])
  }

  /** The store object. Each action overwrites the fields it names and
      leaves the others as they were. */
  class UIStore {
    var isBooting: bool
    var bootComplete: bool
    var sidebarCollapsed: bool
    var commandPaletteOpen: bool
    var activeModule: string
    var uptime: int
    var packetsSent: int
    var networkIntegrity: real
    var trackersBlocked: int
    var systemTemp: real
    var lastMarketUpdate: int

    function State(): UIState
      reads this
    {
      UIState(isBooting, bootComplete, sidebarCollapsed, commandPaletteOpen, activeModule,
              uptime, packetsSent, networkIntegrity, trackersBlocked, systemTemp, lastMarketUpdate)
    }

    /** The store's invariant: the telemetry stays in its bands. */
    predicate Valid()
      reads this
    {
      InBands(State())
    }

    constructor (now: int)
      ensures State() == Initial(now)
      ensures Valid()
    {
      isBooting, bootComplete := true, false;
      sidebarCollapsed, commandPaletteOpen := false, false;
      activeModule := "dashboard";
      uptime, packetsSent, networkIntegrity := 0, 1247893, 99.97;
      trackersBlocked, systemTemp := 4521, 42.0;
      lastMarketUpdate := now;
    }

    method SetBooting(value: bool)
      requires Valid()
      modifies this
      ensures Valid()
      ensures State() == old(State()).(isBooting := value)
    {
      isBooting := value;
    }

    method SetBootComplete(value: bool)
      requires Valid()
      modifies this
      ensures Valid()
      ensures State() == old(State()).(bootComplete := value)
    {
      bootComplete := value;
    }

    method ToggleSidebar()
      requires Valid()
      modifies this
      ensures Valid()
      ensures State() == SidebarToggled(old(State()))
    {
      sidebarCollapsed := !sidebarCollapsed;
    }

    method SetCommandPaletteOpen(value: bool)
      requires Valid()
      modifies this
      ensures Valid()
      ensures State() == old(State()).(commandPaletteOpen := value)
    {
      commandPaletteOpen := value;
    }

    method ToggleCommandPalette()
      requires Valid()
      modifies this
      ensures Valid()
      ensures State() == PaletteToggled(old(State()))
    {
      commandPaletteOpen := !commandPaletteOpen;
    }

    method SetActiveModule(name: string)
      requires Valid()
      modifies this
      ensures Valid()
      ensures State() == old(State()).(activeModule := name)
    {
      activeModule := name;
    }

    method IncrementUptime()
      requires Valid()
      modifies this
      ensures Valid()
      ensures State() == UptimeIncremented(old(State()))
    {
      uptime := uptime + 1;
    }

    method UpdateTelemetry(d: TelemetryDraws)
      requires Valid() && ValidDraws(d)
      modifies this
      ensures Valid()
      ensures State() == TelemetryUpdated(old(State()), d)
    {
      packetsSent := packetsSent + (d.packets * 50.0).Floor;
      networkIntegrity := Clamp(99.0, 100.0, networkIntegrity + (d.integrity - 0.5) * 0.1);
      trackersBlocked := trackersBlocked + (d.trackers * 3.0).Floor;
      systemTemp := Clamp(35.0, 70.0, systemTemp + (d.temp - 0.5) * 2.0);
    }

    method SetLastMarketUpdate(timestamp: int)
      requires Valid()
      modifies this
      ensures Valid()
      ensures State() == old(State()).(lastMarketUpdate := timestamp)
    {
      lastMarketUpdate := timestamp;
    }
  }
}
