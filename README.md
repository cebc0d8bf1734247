# cyber-dashboard, modelled in Dafny

The repository holds two versions of a "cyber" dashboard written in React and
TypeScript. This project models the logic behind them and proves what that
logic promises.

- `app/` is a long scrolling page. A global scroll-snap handler pulls the
  scroll position to the centre of the nearest pinned section whenever the
  position lies within a pinned section. A market simulation updates prices
  and ranks the top gainers and losers.
- `src/` is a module-based dashboard. Its parts:
  - a persisted UI store: boot flags, sidebar, command palette, active module,
    uptime and simulated telemetry;
  - global keyboard shortcuts: Cmd/Ctrl+K, Escape and Alt+1..6;
  - a command palette with search, arrow-key selection, Enter and Escape;
  - the uptime clock `HH:MM:SS`;
  - the number formatters;
  - the coin queries of the market hook: lookup by symbol, top gainers and
    losers, and sector lists;
  - the "Open Networks" resource index, grouped by category;
  - two tools of the tools panel: the hex colour converter and the password
    generator.

Files:

| file | module | models |
|---|---|---|
| `wrappers.dfy` | `Wrappers` | `Option`, which stands for `undefined`/`null` |
| `sequences.dfy` | `Sequences` | `Array.prototype.filter`, `slice(0, n)`, `slice(-n)` and `reverse` |
| `sorting.dfy` | `Sorting` | `Array.prototype.sort` with a numeric comparator: a stable sort (section 23.1.3.30 of ECMA-262) on a real key |
| `text.dfy` | `Text` | ASCII `toLowerCase`, `includes`, `padStart`, and decimal and hexadecimal digits |
| `scroll_snap.dfy` | `ScrollSnap` | the global snap in `app/src/App.tsx` |
| `app_market_data.dfy` | `AppMarketData` | `app/src/hooks/useMarketData.ts` |
| `ui_store.dfy` | `UiStore` | `src/store/ui-store.ts`, with the store as a class |
| `keyboard_shortcuts.dfy` | `KeyboardShortcuts` | `src/hooks/use-keyboard-shortcuts.ts` |
| `command_palette.dfy` | `CommandPalette` | `src/components/dashboard/CommandPalette.tsx`, with the component as a class over the store |
| `system_telemetry.dfy` | `SystemTelemetry` | `formatUptime` in `src/hooks/use-system-telemetry.ts` |
| `format_utils.dfy` | `FormatUtils` | `formatNumber`, `formatCurrency` and `formatPercentage` in `src/lib/utils.ts` |
| `market_data.dfy` | `MarketData` | the query callbacks of `src/hooks/use-market-data.ts` |
| `open_networks.dfy` | `OpenNetworks` | `src/components/dashboard/OpenNetworks.tsx` |
| `tools_panel.dfy` | `ToolsPanel` | the colour converter and the password generator of `src/components/dashboard/ToolsPanel.tsx` |

Parameters stand in for the things the model cannot compute itself:

- each `Math.random()` draw is a real in `[0, 1)`;
- `Date.now()` is an integer;
- `toFixed(x, d)` is a function `(real, nat) -> string`;
- `parseFloat(x.toFixed(2))` is a function `round2`;
- the answer to `prompt` is an `Option<string>`, with `None` for a cancelled
  prompt.

The UI store, the command palette component, the keydown listeners and the
password loop change state step by step, so they are imperative Dafny:
classes with `modifies` clauses, and a `while` loop. Each method is proved
against a function on state snapshots, and the properties of the behaviour
are lemmas about those functions. The queries, the formatters, the snap
computation and the market update are functions.

Three behaviours of the code worth knowing. The model follows the code in
each:

- Escape in the palette closes it but keeps the query and the selected
  index. Reopening shows the old query and selection
  (`CommandPalette.ReopenKeepsQueryAndSelection`).
- The snap handler does not stop at the first range that contains the
  position. Once any range contains it, the handler takes the nearest
  centre over all ranges, even one whose band does not contain the position
  (`ScrollSnap.SnapSearchesAllRanges`).
- The pinned ranges are computed once, after the startup timeout. They are
  not rebuilt on resize.

## Model

| member | source | states |
|---|---|---|
| `Sequences.Filter` | app/src/App.tsx:27 | keeps only elements of the input that satisfy the predicate, keeps every one that does, and is never longer than the input |
| `Sequences.FilterEmpty` | app/src/App.tsx:27-32 | a filter is empty exactly when no element satisfies the predicate |
| `Sequences.FilterAll` | src/components/dashboard/CommandPalette.tsx:32-36 | a filter that every element passes returns the input unchanged |
| `Sequences.FilterAppend` | src/components/dashboard/OpenNetworks.tsx:117 | filtering a concatenation gives the concatenation of the filtered parts, so filtering keeps relative order |
| `Sequences.FilterMultiset` | src/hooks/use-market-data.ts:96 | a filtered list is a sub-multiset of its input |
| `Sequences.FilterTake` | src/hooks/use-market-data.ts:116-118 | the first `k` matches of a filter are the matches within some prefix of the input |
| `Sequences.SliceEnd` | src/hooks/use-market-data.ts:98 | the end index `slice` uses: `min(end, length)` for a non-negative end, `length + end` clamped at zero for a negative one |
| `Sequences.SliceTo` | src/hooks/use-market-data.ts:98 | `slice(0, end)` is the prefix up to that clamped end |
| `Sequences.SliceToMultiset` | src/hooks/use-market-data.ts:98 | a leading slice is a sub-multiset of the list |
| `Sequences.LastN` | app/src/hooks/useMarketData.ts:76 | for n > 0, `slice(-n)` is the tail of length `min(n, length)`, and the list is the rest followed by it (`slice(-0)` would be the whole list, so n = 0 is excluded) |
| `Sequences.Reverse` | app/src/hooks/useMarketData.ts:76 | element `i` of the result is element `length-1-i` of the input, and the multiset is unchanged |
| `Sorting.Insert` | app/src/hooks/useMarketData.ts:68 | inserting into a sorted list keeps it sorted and adds exactly the new element |
| `Sorting.InsertStable` | app/src/hooks/useMarketData.ts:68 | among elements with equal key, the inserted element comes first, before the rest in their order |
| `Sorting.SortBy` | app/src/hooks/useMarketData.ts:68 | the result is sorted by the key and is a permutation of the input |
| `Sorting.SortByStable` | app/src/hooks/useMarketData.ts:68 | for every key value, the elements with that key keep their input order (a stable sort) |
| `Sorting.SortedPrefix` | src/hooks/use-market-data.ts:97-98 | a prefix of a sorted list is sorted |
| `Sorting.SortedSuffix` | app/src/hooks/useMarketData.ts:76 | a suffix of a sorted list is sorted |
| `Sorting.PrefixBelowRest` | app/src/hooks/useMarketData.ts:75 | in a sorted list, every element of the first `n` has a key no larger than every element after them |
| `Text.Lower` | src/hooks/use-market-data.ts:87 | ASCII `toLowerCase`: same length, every capital letter mapped to its lower-case letter, every other character unchanged |
| `Text.LowerIdempotent` | src/hooks/use-market-data.ts:87 | lowering a lowered string changes nothing |
| `Text.Contains` | src/components/dashboard/CommandPalette.tsx:34-35 | `includes` is true exactly when the pattern occurs at some position |
| `Text.NatToString` | src/hooks/use-system-telemetry.ts:26 | `toString` of a natural number is a digit string, one digit exactly below 10, with no leading zero |
| `Text.NatToStringValue` | src/hooks/use-system-telemetry.ts:26 | the decimal value of that string is the number |
| `Text.PadStart` | src/hooks/use-system-telemetry.ts:26-28 | `padStart(width, fill)` puts fill characters in front of the string up to the width and leaves longer strings alone |
| `Text.LeadingZeros` | src/hooks/use-system-telemetry.ts:26-28 | leading zeros do not change a decimal value |
| `ScrollSnap.SortedPinned` | app/src/App.tsx:26-28 | the pinned triggers, each exactly once, ordered by start; triggers with equal starts keep their order in the trigger list (stable sort) |
| `ScrollSnap.IsPinned` | app/src/App.tsx:27 | the filter's test, `st.vars.pin`; `SortedPinned` and `NoPinnedIff` state what keeping exactly those triggers gives |
| `ScrollSnap.Normalize` | app/src/App.tsx:35-39 | a range's start and end times `maxScroll` are the trigger's start and end, its centre is their midpoint, and a missing end falls back to the start |
| `ScrollSnap.NormalizeAll` | app/src/App.tsx:35-39 | one range per pinned trigger, in the same order |
| `ScrollSnap.NormalizeAllSorted` | app/src/App.tsx:28 | for a positive `maxScroll`, the ranges stay ordered by start |
| `ScrollSnap.BuildRanges` | app/src/App.tsx:26-39 | none exactly when `maxScroll` is zero or nothing is pinned; otherwise one normalised range per pinned trigger, in start order |
| `ScrollSnap.NoPinnedIff` | app/src/App.tsx:32 | the pinned list is empty exactly when no trigger pins |
| `ScrollSnap.NoSnapWithoutPinnedRanges` | app/src/App.tsx:32 | with a zero `maxScroll` or no pinned trigger, no snap handler is installed |
| `ScrollSnap.SnapTo` | app/src/App.tsx:43-58 | outside every band widened by 0.02, the position is returned unchanged; inside one, the result is the centre of the first range with the least distance to the position |
| `ScrollSnap.InPinned` | app/src/App.tsx:45-47 | `some` over the ranges: some range's band, widened by 0.02 on both sides, contains the position; `SnapTo` returns the position unchanged exactly when this fails |
| `ScrollSnap.Closest` | app/src/App.tsx:52-55 | the `reduce`: its result is the seed or some range's centre, and it is at least as near to the position as the seed and as every centre |
| `ScrollSnap.ClosestFold` | app/src/App.tsx:52-55 | the `reduce` keeps its seed unless a range is strictly closer; then it returns the centre of the first nearest range |
| `ScrollSnap.SnapTieKeepsEarlier` | app/src/App.tsx:53 | with equally near centres, the earliest range wins because the comparison is strict |
| `ScrollSnap.WorkedExample` | app/src/App.tsx:43-58 | between two sections the position is free; near a section it snaps to that section's centre |
| `ScrollSnap.SnapSearchesAllRanges` | app/src/App.tsx:45-55 | a position inside one band can snap to the centre of another range that is nearer |
| `ScrollSnap.PinnedOrderOfThree` | app/src/App.tsx:26-28 | of three triggers with the middle one unpinned, the pinned two come out in start order |
| `ScrollSnap.RangesOfThree` | app/src/App.tsx:26-39 | the ranges of such three triggers are the two normalised pinned ones, in start order |
| `ScrollSnap.BuildRangesExample` | app/src/App.tsx:26-39 | a concrete page of three triggers gives the ranges `[0, 0.2]` and `[0.5, 0.7]` with centres 0.1 and 0.6 |
| `AppMarketData.Volatility` | app/src/hooks/useMarketData.ts:52 | 0.002 for BTC, 0.003 for ETH and 0.005 for every other symbol |
| `AppMarketData.NextPrice` | app/src/hooks/useMarketData.ts:53-54 | a price moves by at most half the volatility, relatively, and a positive price stays positive |
| `AppMarketData.NextChange` | app/src/hooks/useMarketData.ts:55 | the 24-hour change moves by at most 0.05 before rounding |
| `AppMarketData.UpdateAsset` | app/src/hooks/useMarketData.ts:51-62 | only the price and the change are replaced; the price step is bounded; the change is the rounded new change |
| `AppMarketData.UpdateAll` | app/src/hooks/useMarketData.ts:64-65 | `map(updateAsset)`: same length, each asset updated from its own draw, each listing (symbol, name, volume, cap) kept, positive prices kept positive |
| `AppMarketData.ByChange` | app/src/hooks/useMarketData.ts:67-68 | the ranking holds exactly the assets, ordered by descending change; `RankingTiesKeepOrder` states its stability |
| `AppMarketData.TopGainers` | app/src/hooks/useMarketData.ts:67-75 | the first three of the ranking: `min(3, n)` assets, in descending order of change, all taken from the assets |
| `AppMarketData.TopLosers` | app/src/hooks/useMarketData.ts:67-76 | the last three of the ranking reversed: `min(3, n)` assets, in ascending order of change, all taken from the assets |
| `AppMarketData.GainersFacts` | app/src/hooks/useMarketData.ts:68-75 | the size, descending order and provenance of the first three of the ranking |
| `AppMarketData.LosersFacts` | app/src/hooks/useMarketData.ts:68-76 | the size, ascending order and provenance of the reversed last three of the ranking |
| `AppMarketData.ReversedAscending` | app/src/hooks/useMarketData.ts:76 | reversing a list sorted by descending change gives one sorted by ascending change |
| `AppMarketData.ReversedTailAscending` | app/src/hooks/useMarketData.ts:76 | the reversed tail of the ranking is in ascending order of change |
| `AppMarketData.ReversedTailMultiset` | app/src/hooks/useMarketData.ts:76 | the reversed tail holds only assets of the ranking |
| `AppMarketData.RankingTiesKeepOrder` | app/src/hooks/useMarketData.ts:67-68 | assets with equal change keep their crypto-then-stocks order in the ranking |
| `AppMarketData.GainersAreTop` | app/src/hooks/useMarketData.ts:75 | every top gainer has at least the change of every asset left out |
| `AppMarketData.LosersAreBottom` | app/src/hooks/useMarketData.ts:76 | every top loser has at most the change of every asset left out |
| `AppMarketData.Ranked` | app/src/hooks/useMarketData.ts:86-95 | the mount effect keeps every field and recomputes both rankings from crypto followed by stocks |
| `AppMarketData.NextDominance` | app/src/hooks/useMarketData.ts:73 | BTC dominance moves by at most 0.025 |
| `AppMarketData.Tick` | app/src/hooks/useMarketData.ts:64-74 | the new crypto and stocks are `UpdateAll` of the old ones with their draws, so every price step is bounded by half the volatility and every change moves by at most 0.05 before `round2`; the same assets are listed in the same order, the total cap is kept, and dominance moves by at most 0.025 |
| `AppMarketData.UpdatePrices` | app/src/hooks/useMarketData.ts:49-79 | a tick: the new crypto and stocks are `UpdateAll` of the old ones with their draws (bounded price and change steps), dominance moves by at most 0.025, and the gainers and losers are the rankings of the new crypto followed by the new stocks |
| `AppMarketData.MountFillsRankings` | app/src/hooks/useMarketData.ts:40-95 | the rankings start empty and hold three assets each after mount |
| `AppMarketData.InitialListings` | app/src/hooks/useMarketData.ts:21-47 | the initial data (`InitialCrypto`, `InitialStocks`, `Initial`): six coins with a market cap, six indices without one, all prices positive, dominance 52.4 and total cap "2.48T" |
| `UiStore.Clamp` | src/store/ui-store.ts:52-61 | `Math.min(hi, Math.max(lo, x))` lies in `[lo, hi]` and is `x` when `x` already does |
| `UiStore.SidebarToggled` | src/store/ui-store.ts:35-36 | flips the sidebar flag and nothing else |
| `UiStore.PaletteToggled` | src/store/ui-store.ts:39-40 | flips the palette flag and nothing else |
| `UiStore.UptimeIncremented` | src/store/ui-store.ts:48 | adds one second to the uptime and changes nothing else |
| `UiStore.TelemetryUpdated` | src/store/ui-store.ts:49-62 | packets grow by 0..49 and trackers by 0..2; integrity stays in `[99, 100]` and temperature in `[35, 70]`; from a state inside those bands integrity moves by at most 0.05 and temperature by at most 1; other fields are untouched |
| `UiStore.Initial` | src/store/ui-store.ts:29-47 | the store starts booting, with the palette closed, uptime zero, telemetry in its bands, the sidebar expanded on the dashboard module, and the given timestamp |
| `UiStore.Partialize` | src/store/ui-store.ts:66-71 | only the sidebar flag and the active module are persisted; `Rehydrate` and `ReloadKeepsOnlyPersisted` state what a reload makes of them |
| `UiStore.Rehydrate` | src/store/ui-store.ts:29-71 | a reload is the initial store with the two persisted fields merged over it, and persisting it gives back what was stored |
| `UiStore.ReloadKeepsOnlyPersisted` | src/store/ui-store.ts:29-71 | after a reload the sidebar and module are as before, the uptime is zero and the palette is closed |
| `UiStore.ToggleSidebarTwice` | src/store/ui-store.ts:35-36 | toggling twice restores the state |
| `UiStore.ToggleCommandPaletteTwice` | src/store/ui-store.ts:39-40 | toggling twice restores the state |
| `UiStore.TelemetryCountersMonotone` | src/store/ui-store.ts:49-62 | over any number of updates the counters never decrease and grow by at most 49 and 2 per update; uptime, module and flags are untouched |
| `UiStore.UIStore.constructor` | src/store/ui-store.ts:29-63 | the store starts in the initial state, with the telemetry in its bands |
| `UiStore.UIStore.SetBooting` | src/store/ui-store.ts:32 | sets `isBooting` only |
| `UiStore.UIStore.SetBootComplete` | src/store/ui-store.ts:33 | sets `bootComplete` only |
| `UiStore.UIStore.ToggleSidebar` | src/store/ui-store.ts:35-36 | the new state is the sidebar-toggled old state |
| `UiStore.UIStore.SetCommandPaletteOpen` | src/store/ui-store.ts:38 | sets the palette flag only |
| `UiStore.UIStore.ToggleCommandPalette` | src/store/ui-store.ts:39-40 | the new state is the palette-toggled old state |
| `UiStore.UIStore.SetActiveModule` | src/store/ui-store.ts:42 | sets the active module only |
| `UiStore.UIStore.IncrementUptime` | src/store/ui-store.ts:48 | the new state is the old one with one more second |
| `UiStore.UIStore.UpdateTelemetry` | src/store/ui-store.ts:49-62 | the new state is the telemetry update of the old one, and the bands are kept |
| `UiStore.UIStore.SetLastMarketUpdate` | src/store/ui-store.ts:64 | sets the market timestamp only |
| `KeyboardShortcuts.AltModule` | src/hooks/use-keyboard-shortcuts.ts:21-47 | a module exactly for the keys "1" to "6" |
| `KeyboardShortcuts.IsPaletteToggle` | src/hooks/use-keyboard-shortcuts.ts:9 | Cmd or Ctrl with a lower-case "k"; `OnKeyDown` and `UpperCaseKIgnored` state its effect |
| `KeyboardShortcuts.OnKeyDown` | src/hooks/use-keyboard-shortcuts.ts:7-48 | Cmd/Ctrl+K flips the palette, Escape closes it, any other key (a plain "k" included) leaves it as it was, Alt+1..6 set the module; nothing else changes; the default is prevented exactly for the toggle and the Alt shortcuts |
| `KeyboardShortcuts.PaletteToggleTwice` | src/hooks/use-keyboard-shortcuts.ts:9-12 | pressing Cmd/Ctrl+K twice restores the state |
| `KeyboardShortcuts.UpperCaseKIgnored` | src/hooks/use-keyboard-shortcuts.ts:9 | a "K" reported with Shift held changes nothing |
| `KeyboardShortcuts.EscapeWhenClosed` | src/hooks/use-keyboard-shortcuts.ts:14-19 | Escape with the palette closed changes nothing |
| `KeyboardShortcuts.AltDigitModules` | src/hooks/use-keyboard-shortcuts.ts:22-46 | Alt+1..6 select dashboard, markets, log, networks, tools and status; other digits select nothing |
| `KeyboardShortcuts.HandleKeyDown` | src/hooks/use-keyboard-shortcuts.ts:7-48 | the listener drives the store to the state `OnKeyDown` gives and reports the same `preventDefault` |
| `CommandPalette.Matches` | src/components/dashboard/CommandPalette.tsx:33-35 | the lower-cased name or description contains the lower-cased query; `Filtered` keeps exactly the commands for which it holds |
| `CommandPalette.Filtered` | src/components/dashboard/CommandPalette.tsx:32-36 | exactly the commands whose lower-cased name or description contains the lower-cased query |
| `CommandPalette.EmptyQueryMatchesAll` | src/components/dashboard/CommandPalette.tsx:32-36 | an empty query lists every command, in order |
| `CommandPalette.EmptyQueryListsAll` | src/components/dashboard/CommandPalette.tsx:17-36 | the palette opens on all seven commands |
| `CommandPalette.SetQuery` | src/components/dashboard/CommandPalette.tsx:38-40 | a new query resets the selection to 0; retyping the same query changes nothing |
| `CommandPalette.Execute` | src/components/dashboard/CommandPalette.tsx:71-79 | closes the palette and clears the query; "about" keeps the module and any other id becomes the module; the reset effect zeroes the selection if the query changed |
| `CommandPalette.KeyDown` | src/components/dashboard/CommandPalette.tsx:43-65 | closed: nothing happens; ArrowDown and ArrowUp clamp the selection to the list; Enter executes the selected command if there is one; Escape closes and keeps the query; the default is prevented exactly for the arrows and Enter; a valid selection stays valid |
| `CommandPalette.Dismissed` | src/components/dashboard/CommandPalette.tsx:89 | clicking the backdrop closes the palette and keeps the query, selection and module |
| `CommandPalette.Hover` | src/components/dashboard/CommandPalette.tsx:132 | hovering selects that entry and changes nothing else |
| `CommandPalette.ArrowDownStopsAtLast` | src/components/dashboard/CommandPalette.tsx:47-50 | enough ArrowDown presses reach the last entry and stay there |
| `CommandPalette.ArrowDownOnEmptyList` | src/components/dashboard/CommandPalette.tsx:47-60 | with no matches ArrowDown sets the selection to -1, and Enter then does nothing |
| `CommandPalette.ReopenKeepsQueryAndSelection` | src/components/dashboard/CommandPalette.tsx:61-63 | Escape changes only the open flag |
| `CommandPalette.Palette.constructor` | src/components/dashboard/CommandPalette.tsx:27-30 | the palette starts on the seven commands with an empty query and the first entry selected |
| `CommandPalette.Palette.SetSearchQuery` | src/components/dashboard/CommandPalette.tsx:38-40 | the new view is `SetQuery` of the old one |
| `CommandPalette.Palette.ExecuteCommand` | src/components/dashboard/CommandPalette.tsx:71-79 | the new view is `Execute` of the old one, and the store changes only in the palette flag and the module |
| `CommandPalette.Palette.HandleKeyDown` | src/components/dashboard/CommandPalette.tsx:43-65 | the new view and `preventDefault` are those of `KeyDown`, and the store changes only in the palette flag and the module |
| `CommandPalette.Palette.SelectNext` | src/components/dashboard/CommandPalette.tsx:47-50 | the ArrowDown case of `KeyDown` |
| `CommandPalette.Palette.SelectPrevious` | src/components/dashboard/CommandPalette.tsx:51-54 | the ArrowUp case of `KeyDown` |
| `CommandPalette.Palette.RunSelected` | src/components/dashboard/CommandPalette.tsx:55-60 | the Enter case of `KeyDown` |
| `CommandPalette.Palette.Dismiss` | src/components/dashboard/CommandPalette.tsx:61-63 | only the store's palette flag changes, to closed |
| `CommandPalette.Palette.HoverEntry` | src/components/dashboard/CommandPalette.tsx:132 | the new view is `Hover` of the old one |
| `SystemTelemetry.TwoDigits` | src/hooks/use-system-telemetry.ts:26-28 | a digit string whose value is the number, two characters long below 100 and unpadded above |
| `SystemTelemetry.FormatUptime` | src/hooks/use-system-telemetry.ts:22-29 | `HH:MM:SS` is at least eight characters long, and reading its three fields back gives the number of seconds |
| `SystemTelemetry.ClockArithmetic` | src/hooks/use-system-telemetry.ts:23-25 | hours, minutes and seconds add back up to the total, with minutes and seconds below 60 |
| `SystemTelemetry.UptimeFields` | src/hooks/use-system-telemetry.ts:24-28 | the minutes and seconds fields are the padded minutes and seconds |
| `SystemTelemetry.UptimeFieldsBelowSixty` | src/hooks/use-system-telemetry.ts:24-28 | the minutes and seconds fields are two digits, each below 60 |
| `SystemTelemetry.UptimeAtStart` | src/hooks/use-system-telemetry.ts:22-29 | zero seconds is "00:00:00" |
| `SystemTelemetry.UptimeExample` | src/hooks/use-system-telemetry.ts:22-29 | 3661 seconds is "01:01:01" |
| `SystemTelemetry.UptimeHoursDoNotWrap` | src/hooks/use-system-telemetry.ts:23-26 | the string is longer than eight characters exactly from 100 hours on |
| `SystemTelemetry.HundredHoursExample` | src/hooks/use-system-telemetry.ts:23-26 | 360000 seconds is "100:00:00" |
| `FormatUtils.ScaleOf` | src/lib/utils.ts:8-13 | the suffix is picked by the first threshold reached, from T down to none, and the magnitude times the power is the number |
| `FormatUtils.FormatNumber` | src/lib/utils.ts:8-14 | `toFixed` of the number divided by 1e12, 1e9, 1e6 or 1e3, followed by T, B, M or K, or the plain number below 1000 |
| `FormatUtils.SuffixMonotone` | src/lib/utils.ts:8-14 | a larger number never gets a smaller suffix |
| `FormatUtils.NegativeHasNoSuffix` | src/lib/utils.ts:8-14 | negative numbers are printed without a suffix |
| `FormatUtils.FormatCurrency` | src/lib/utils.ts:16-18 | a "$" followed by the compact number |
| `FormatUtils.FormatPercentage` | src/lib/utils.ts:20-23 | "+" for zero and above, then `toFixed`, then "%" |
| `FormatUtils.PercentagePlusIffNonNegative` | src/lib/utils.ts:20-23 | the result starts with "+" exactly when the number is not negative |
| `FormatUtils.DefaultDecimalsUsed` | src/lib/utils.ts:8-23 | called without `decimals`, the formatters use two: 2.48e12 is "$" + toFixed(2.48, 2) + "T" and 2.4 is "+" + toFixed(2.4, 2) + "%" |
| `MarketData.GetCoinData` | src/hooks/use-market-data.ts:84-91 | none exactly when no symbol matches ignoring case; otherwise the first coin that matches |
| `MarketData.LookupIgnoresCase` | src/hooks/use-market-data.ts:87 | looking up a symbol and its lower-case form gives the same coin |
| `MarketData.LookupSameKey` | src/hooks/use-market-data.ts:87 | two symbols that agree ignoring case find the same coin |
| `MarketData.GetTopGainers` | src/hooks/use-market-data.ts:93-101 | only rising coins, in descending order of change, `slice(0, limit)` of all of them, taken from the list |
| `MarketData.GetTopLosers` | src/hooks/use-market-data.ts:103-111 | only falling coins, in ascending order of change, `slice(0, limit)` of all of them, taken from the list |
| `MarketData.RankedGainers` | src/hooks/use-market-data.ts:95-97 | the rising coins sorted by descending change; `RankedGainersFacts` and `GainersTiesKeepListOrder` state what it holds and its tie order |
| `MarketData.RankedLosers` | src/hooks/use-market-data.ts:105-107 | the falling coins sorted by ascending change; `RankedLosersFacts` and `LosersTiesKeepListOrder` state what it holds and its tie order |
| `MarketData.RankedGainersFacts` | src/hooks/use-market-data.ts:95-97 | the sorted rising coins are rising and taken from the list |
| `MarketData.RankedLosersFacts` | src/hooks/use-market-data.ts:105-107 | the sorted falling coins are falling and taken from the list |
| `MarketData.TopGainersFacts` | src/hooks/use-market-data.ts:95-98 | the sign, order, size and provenance of the sliced gainers |
| `MarketData.TopLosersFacts` | src/hooks/use-market-data.ts:105-108 | the sign, order, size and provenance of the sliced losers |
| `MarketData.GainersBeatTheRest` | src/hooks/use-market-data.ts:93-101 | no rising coin left out beats a listed gainer |
| `MarketData.LosersBeatTheRest` | src/hooks/use-market-data.ts:103-111 | no falling coin left out falls further than a listed loser |
| `MarketData.GainersTiesKeepListOrder` | src/hooks/use-market-data.ts:97 | gainers with equal change keep the order of the data |
| `MarketData.LosersTiesKeepListOrder` | src/hooks/use-market-data.ts:107 | losers with equal change keep the order of the data |
| `MarketData.UnchangedCoinInNeitherList` | src/hooks/use-market-data.ts:96-106 | a coin with zero change is neither a gainer nor a loser |
| `MarketData.Sector` | src/hooks/use-market-data.ts:116-118 | members of the sector only, taken from the list, `slice(0, limit)` of all of them |
| `MarketData.SectorIsLeadingRun` | src/hooks/use-market-data.ts:116-118 | a sector list is all the members within some prefix of the data, in data order |
| `MarketData.SectorBelowLimitIsComplete` | src/hooks/use-market-data.ts:116-118 | when the limit is not reached, every member coin is listed |
| `MarketData.GetAISector` | src/hooks/use-market-data.ts:113-121 | the first `limit` AI coins (lower-cased symbol in the fixed list) in list order: exactly the AI coins of some leading part of the list, and as many as `slice(0, limit)` keeps of all AI coins |
| `MarketData.GetLayer1` | src/hooks/use-market-data.ts:123-131 | the first `limit` layer-1 coins (lower-cased symbol in the fixed list) in list order: exactly the layer-1 coins of some leading part of the list, and as many as `slice(0, limit)` keeps of all layer-1 coins |
| `MarketData.GetLayer2` | src/hooks/use-market-data.ts:133-141 | the first `limit` layer-2 coins (lower-cased symbol in the fixed list) in list order: exactly the layer-2 coins of some leading part of the list, and as many as `slice(0, limit)` keeps of all layer-2 coins |
| `MarketData.DefaultLimitIsFive` | src/hooks/use-market-data.ts:93-141 | called without a limit, every list holds at most five coins, and exactly five gainers or losers once five coins rise or fall |
| `OpenNetworks.IconFor` | src/components/dashboard/OpenNetworks.tsx:96-116 | the mapped icon for the five known categories; the inherited `Object.prototype` member for a name such as "constructor", which is truthy and so not replaced; Globe exactly for every other category |
| `OpenNetworks.InheritedKeyIsNotGlobe` | src/components/dashboard/OpenNetworks.tsx:116 | a category named like an `Object.prototype` member never falls back to Globe |
| `OpenNetworks.Distinct` | src/components/dashboard/OpenNetworks.tsx:105 | `Array.from(new Set(...))`: no duplicates, every value kept, nothing added |
| `OpenNetworks.DistinctKeepsFirstSeenOrder` | src/components/dashboard/OpenNetworks.tsx:105 | the distinct values come out in order of first occurrence |
| `OpenNetworks.CategoriesAreTheDistinctCategories` | src/components/dashboard/OpenNetworks.tsx:105 | each category exactly once, every category that occurs, and no other |
| `OpenNetworks.Categories` | src/components/dashboard/OpenNetworks.tsx:105 | the distinct categories in order of first appearance; `CategoriesAreTheDistinctCategories` and `DistinctKeepsFirstSeenOrder` state it |
| `OpenNetworks.Group` | src/components/dashboard/OpenNetworks.tsx:117 | exactly the resources of that category |
| `OpenNetworks.GroupKeepsOrder` | src/components/dashboard/OpenNetworks.tsx:117 | grouping keeps the index order of the resources |
| `OpenNetworks.SectionOf` | src/components/dashboard/OpenNetworks.tsx:115-126 | a block's icon is its category's, and its badge counts its resources |
| `OpenNetworks.SectionsFor` | src/components/dashboard/OpenNetworks.tsx:115 | one block per category, in category order |
| `OpenNetworks.Sections` | src/components/dashboard/OpenNetworks.tsx:115-126 | one block per category; `ExactlyOneSection` and `BadgesAddUp` state that every resource is in exactly its own block and the badges add up |
| `OpenNetworks.ExactlyOneSection` | src/components/dashboard/OpenNetworks.tsx:115-117 | a resource is listed in a block exactly when the block is its category's |
| `OpenNetworks.GroupsPartition` | src/components/dashboard/OpenNetworks.tsx:117 | grouping by a duplicate-free list of all categories loses and repeats nothing |
| `OpenNetworks.BadgesAddUp` | src/components/dashboard/OpenNetworks.tsx:105-125 | the badges add up to the number of resources |
| `OpenNetworks.ShippedCategoriesHaveIcons` | src/components/dashboard/OpenNetworks.tsx:13-102 | every shipped resource's category has its own icon |
| `ToolsPanel.TrimStart` | src/components/dashboard/ToolsPanel.tsx:58 | `parseInt` first drops leading white space and line terminators and nothing more |
| `ToolsPanel.HexRun` | src/components/dashboard/ToolsPanel.tsx:58 | the length of the leading run of hex digits |
| `ToolsPanel.ParseIntHex` | src/components/dashboard/ToolsPanel.tsx:58-60 | `parseInt(s, 16)` (section 19.2.5 of ECMA-262): NaN exactly when no hex digit follows the optional sign and "0x"; otherwise a number with the sign of the input |
| `ToolsPanel.ParseDigits` | src/components/dashboard/ToolsPanel.tsx:58-60 | a string of hex digits parses to its hexadecimal value |
| `ToolsPanel.NothingIsNaN` | src/components/dashboard/ToolsPanel.tsx:58-60 | "", "-" and "0x" parse to NaN |
| `ToolsPanel.Slice` | src/components/dashboard/ToolsPanel.tsx:58-60 | `slice(start, end)`: the substring when both bounds lie within the string, the rest of the string from `start` when only `end` lies past it, and empty when the range is empty or starts past the end |
| `ToolsPanel.HexToRgb` | src/components/dashboard/ToolsPanel.tsx:56-62 | nothing for a cancelled or empty answer; otherwise the three `parseInt`s of characters 1-2, 3-4 and 5-6 |
| `ToolsPanel.WellFormedChannels` | src/components/dashboard/ToolsPanel.tsx:56-62 | a "#rrggbb" answer gives the three channel values, each at most 255 |
| `ToolsPanel.ChannelSlices` | src/components/dashboard/ToolsPanel.tsx:58-60 | for a seven-character answer, the slices are the plain subsequences |
| `ToolsPanel.HexByte` | src/components/dashboard/ToolsPanel.tsx:58-60 | two hex digits whose value is the byte |
| `ToolsPanel.ColorHex` | src/components/dashboard/ToolsPanel.tsx:56 | "#" followed by three hex bytes is a well-formed colour |
| `ToolsPanel.ColorRoundTrip` | src/components/dashboard/ToolsPanel.tsx:56-62 | converting the hex form of any colour gives back its three channels |
| `ToolsPanel.PromptExample` | src/components/dashboard/ToolsPanel.tsx:56-61 | the prompt's own example "#00f0ff" gives rgb(0, 240, 255) |
| `ToolsPanel.ShorthandNotExpanded` | src/components/dashboard/ToolsPanel.tsx:58-60 | a shorthand "#rgb" is not expanded: red is two digits, green one digit, blue NaN |
| `ToolsPanel.OneDigit` | src/components/dashboard/ToolsPanel.tsx:59 | a single hex digit parses to its value |
| `ToolsPanel.CharIndex` | src/components/dashboard/ToolsPanel.tsx:98 | `Math.floor(r * length)` is a valid index into the character set |
| `ToolsPanel.GeneratePassword` | src/components/dashboard/ToolsPanel.tsx:95-99 | 16 characters, character `i` picked from the set by draw `i` |

## Left out

- Rendering, styling, animation (framer-motion, GSAP tweens), icons as
  components and React render timing are not modelled. An icon is a datatype
  tag.
- Timers are not modelled: `setTimeout` before the snap is installed, the
  `setInterval`s for prices, uptime, telemetry and the coin fetch, and their
  cleanup. Each tick is one call of the modelled update.
- `ScrollTrigger.getAll`, `maxScroll` and `create` are not modelled. The
  triggers and `maxScroll` are parameters. A `NaN` `maxScroll` is not
  modelled: Dafny reals have no NaN.
- `fetch`, the mock coin data and the fear-and-greed index of
  `src/hooks/use-market-data.ts` are not modelled. The queries take the
  coin list as a parameter.
- Floating point is not modelled. Prices, changes and telemetry are exact
  reals. `toFixed`, `parseFloat(x.toFixed(2))` and `toLocaleString` are
  parameters, so their digit rendering and rounding are not modelled.
- `Math.random()` and `Date.now()` are not modelled. They are parameters.
- `alert`, `prompt`, `btoa`, `encodeURIComponent`, `window.open`, `eval`,
  `navigator` and the other tools of the tools panel (Base64, timestamp, QR,
  IP lookup, calculator) are not modelled. They are browser calls with no
  logic of their own beyond a non-empty check. The colour tool's prompt
  answer is a parameter.
- `ToolsPanel.Slice` and `ToolsPanel.HexToRgb`: strings are sequences of
  Unicode scalar values, while JavaScript's `slice` counts UTF-16 code units.
  An answer with a character outside the Basic Multilingual Plane (an emoji,
  say) is sliced differently, so its channels can differ from the source's.
- `Text.Lower` and `MarketData.GetCoinData`: only ASCII letters are folded.
  Unicode case mapping is not modelled.
- `SystemTelemetry.FormatUptime` is modelled for whole non-negative
  seconds, which is all the counter produces. Fractional or negative input
  is not modelled.
- `ToolsPanel.ParseIntHex` does not distinguish `-0` from `0`. A negative
  zero prints the same in the alert.
- `AppMarketData.UpdatePrices`: the sort works on a copy in the source.
  Values are immutable here, so copying is not modelled.
- `CommandPalette.Palette.HandleKeyDown`: the source's `switch` is split into
  one method per key, so that each case is proved on its own.
- The order in which `keydown` listeners run is not modelled. The global
  shortcut listener and the palette's listener are separate methods, so
  their interleaving on one Escape press is not captured.
- `useClock`, `cn`, `sleep`, `formatTimestamp`, `formatDate`, the boot
  screen, the engineering log, the sidebar and the panels are not modelled.
  They only display or format dates, which depend on the clock and the
  locale.
- The persist middleware's storage, and the storage key "dirkx-ui-store", are
  not modelled. `Rehydrate` models its shallow merge of the stored fields over
  the initial state.
