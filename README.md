# Ateon-Nix shell core, modelled in Dafny

Ateon-Nix is a desktop shell built on AGS (GTK 4 and TypeScript) for the Hyprland
compositor. Most of it is widget composition. This project models the parts that carry
real rules and state, and proves properties of them:

- **Wallpaper and theme store** (`wallpaper_store.dfy`, `wallpaper_index.dfy`,
  `theme_rules.dfy`, `theme_cache.dfy`, `wallpaper_types.dfy`). It covers:
  - the bounded recursive directory scan that skips hidden names and keeps images;
  - the search rule and the random pick;
  - the wallpaper-apply protocol: skip an unchanged path, write optimistically, roll back on failure;
  - the single-slot 100 ms debounce of the theme analysis;
  - the line scanner for the colour tool's `theme` report;
  - the file-name/hour fallback guess;
  - the merge of the automatic analysis with the manual mode and scheme;
  - the `chromash` command lines and the `notify-send` message;
  - the timestamped theme cache with oldest-first eviction, its save and its filtered reload.
- **List managers.**
  - The clipboard history (`clipboard.dfy`): the `cliphist` line parser, previews, the query filter, bounded up/down, key dispatch, select/delete mode and the update callbacks.
  - The window switcher (`window_switcher.dfy`): client mapping, defaulting and sorting, the title-or-class filter, cyclic navigation and key dispatch.
  - The switcher's card grid (`window_grid.dfy`): the icon-mapping parser, the icon lookup, title truncation, the index clamp and five-card rows.
- **Timer service** (`timer.dfy`): add, remove, start, stop and reset; the one-second tick; the notify-once flag; `formatTime`. At most one timer runs at a time.
- **Small selection rules.**
  - Media players (`mpris.ts`, modelled in `mpris.dfy`).
  - Monitor matching (`monitors.dfy`).
  - The ten workspace buttons (`workspaces.dfy`).
  - The sidebar's widget lists and registry (`sidebar.dfy`, `widget_registry.dfy`).
  - The dock's click decisions, CSS classes and auto-hide (`dock.dfy`).
  - The cheat sheet's tab clamp (`cheatsheet.dfy`).
- **Audio visualiser state** (`cava_state.dfy`, `visualization.dfy`):
  - particle compaction;
  - the bounded waterfall history;
  - bar arrays grown and shrunk under `maxBars`;
  - normalising, smoothing, peaks, averages and clamping.

Shared modules model the JavaScript library behaviour the rules rely on:
- `Wrappers`: `null`/`undefined` as `Option`;
- `Seqs`: `Array.prototype.filter` and subsequences;
- `OrderedMap`: insertion-ordered `Map` and plain objects;
- `Sorting`: stable `Array.prototype.sort`;
- `JsStrings`: `trim`, `split`, `includes`, `toLowerCase`, `padStart` and number formatting.

How the model is built:
- Stateful objects (the store, the managers, the timer service, the dock's reveal state, the visualiser states) are classes.
- Each class's `State()` is a value of a state datatype.
- Each method is proved to move that state by a pure transition function.
- The properties are lemmas about those transition functions.
- Pure rules are functions and lemmas.

The environment is always an input or a log:
- Inputs: process results, the file system (as a tree), `Date.now()`, the hour of the day and `Math.random()`.
- Logs: signals and the command lines the shell runs.
- `setTimeout(…, 0)` callbacks and timers fire as explicit steps.

Three behaviours of the code are worth stating plainly:
- The file-name fallback for a wallpaper's colour scheme runs only when the report parser returns null (`ags/utils/wallpaper/WallpaperStore.ts:420`). The parser never returns null, because nothing inside its `try` throws. A failing tool command rejects the analysis promise instead, and its handler (lines 403-406) calls `emit("error", …)`.
- Cache cleanup sorts all entries oldest first and deletes the `size - maxSize` oldest of them in one pass (lines 538-545).
- The store declares three signals: wallpapers-changed, wallpaper-set and theme-settings-changed (lines 42-49). It has no `error` signal, and GJS throws on `emit` of an undeclared name, so every `emit("error", …)` throws. The transitions model the evident intent, an `error` event. The two places where the throw changes the state are under "## Findings".

## Model

| member | source | states |
|---|---|---|
| Monitors.HyprToGdk | ags/utils/monitors.ts:14-29 | no GDK monitors gives null; a monitor on the focused output is found when one exists; with none, the first monitor |
| Monitors.HyprToGdkFirstMatch | ags/utils/monitors.ts:18-25 | the result is the first monitor, in list order, whose connector is the focused monitor's name |
| Monitors.GdkMonitorFor | ags/utils/monitors.ts:31-39 | the binding's value is null only for an empty list and otherwise one of the listed monitors |
| Monitors.GdkMonitorIsLookup | ags/utils/monitors.ts:34-39 | the binding's fallback to `monitors[0]` never changes the lookup's answer |
| Monitors.CurrentMonitorWidth | ags/utils/monitors.ts:41-46 | 1000 with no focused monitor, its width otherwise |
| Mpris.FindPlayer | ags/utils/mpris.ts:10-24 | a player is found exactly when the array exists and holds a playing or titled player, and it is one of the array's |
| Mpris.FindPlayerPrefersPlaying | ags/utils/mpris.ts:15-20 | the first playing player is returned, wherever titled players sit |
| Mpris.FindPlayerFallsBackToTitled | ags/utils/mpris.ts:22-23 | with nothing playing, the first player whose title is neither null nor undefined is returned |
| Mpris.StateIcon | ags/utils/mpris.ts:26-30 | the pause icon exactly when the status is PLAYING, the start icon otherwise |
| Mpris.WholeMinutes | ags/utils/mpris.ts:87 | the floor of `length / 60`: the largest whole number of minutes not above the length |
| Mpris.SecondsInMinute | ags/utils/mpris.ts:88-90 | below 60, and the whole seconds are 60 times the minutes plus it |
| Mpris.LengthStr | ags/utils/mpris.ts:82-85 | "0:00" for a non-number, a non-finite or a negative length |
| Mpris.LengthStrFields | ags/utils/mpris.ts:87-92 | otherwise two colon-separated fields, the second exactly two digits, that read back as the whole seconds |
| Mpris.MinutesFields | ags/utils/mpris.ts:87-92 | minutes, ":" and the two-digit padded seconds split back into their two values |
| Mpris.FilterActivePlayers | ags/utils/mpris.ts:95-119 | no array gives []; otherwise an order-preserving subsequence holding exactly the present players with a title or artist whose status, when set, is PLAYING or PAUSED |
| Mpris.HasActivePlayers | ags/utils/mpris.ts:146-155 | true exactly when some player of the array is usable |
| Mpris.FirstActivePlayer | ags/utils/mpris.ts:157-165 | a player exactly when one is usable, and then a usable one of the array |
| Mpris.FirstActiveIsFirst | ags/utils/mpris.ts:157-165 | it is the first usable player in array order |
| Workspaces.ActiveWorkspaces | ags/widgets/bar/modules/Workspaces.tsx:30-32 | sorted by id and holding exactly the workspaces whose id is outside [-99, -2] |
| Workspaces.Button | ags/widgets/bar/modules/Workspaces.tsx:37-45 | a button carries its id, is active exactly when it has a workspace, visible exactly when its id is at most `maxId`, and its workspace is the kept one with that id, if any |
| Workspaces.WorkspaceButtons | ags/widgets/bar/modules/Workspaces.tsx:36-37 | exactly ten buttons, with ids 1 to 10 in order |
| Workspaces.ButtonLaws | ags/widgets/bar/modules/Workspaces.tsx:31-45 | button k is active exactly when some kept workspace has id k+1, shows that workspace, and is visible exactly when k+1 is at most `maxId` |
| Workspaces.MaxIdIsLargest | ags/widgets/bar/modules/Workspaces.tsx:34 | `maxId` bounds every kept id, is a kept id unless it is 1, and is 1 when nothing is kept |
| Workspaces.VisibleDownwardClosed | ags/widgets/bar/modules/Workspaces.tsx:43 | below a visible button every button is visible |
| Workspaces.OnlyFirstWhenIdle | ags/widgets/bar/modules/Workspaces.tsx:34-43 | with no kept workspace, only the first button is visible |
| WidgetRegistry.RegistryShape | ags/widgets/sidebar/widgetRegistry.ts:10-81 | seven distinct keys; each entry's id is its key; only settings and updater are on the settings page; only clock and settings cannot be disabled |
| WidgetRegistry.AvailableWidgets | ags/widgets/sidebar/widgetRegistry.ts:83-85 | the table's values in key order |
| WidgetRegistry.ValidWidgetIds | ags/widgets/sidebar/widgetRegistry.ts:91-93 | an id is valid exactly when it is one of the seven keys |
| WidgetRegistry.GetWidgetById | ags/widgets/sidebar/widgetRegistry.ts:87-89 | a definition exactly for a valid id, and then the table's entry under that id |
| WidgetRegistry.WidgetsByMode | ags/widgets/sidebar/widgetRegistry.ts:95-97 | exactly the definitions of that page, in table order |
| WidgetRegistry.PagesOfRegistry | ags/widgets/sidebar/widgetRegistry.ts:95-97 | the settings page lists settings and updater and the widgets page lists all the others |
| Sidebar.FilteredIds | ags/widgets/sidebar/main.tsx:31-38 | a subsequence of the configured order (defaulted when unset) holding exactly the ids that are also enabled (defaulted when unset) |
| Sidebar.ForMode | ags/widgets/sidebar/main.tsx:43-51 | a subsequence of the list, never holding "clock", and holding exactly the listed registered ids whose page is the current one |
| Sidebar.ShowSeparator | ags/widgets/sidebar/main.tsx:130-132 | a separator exactly when the widget has `separatorAfter` and is not the last of the page |
| Sidebar.PageListLaws | ags/widgets/sidebar/main.tsx:31-52 | the page list is a subsequence of the configured order holding exactly the enabled, registered, non-clock ids of the page |
| Sidebar.NoTrailingSeparator | ags/widgets/sidebar/main.tsx:130-132 | the last widget of a page never has a separator |
| Sidebar.SidebarPanel.constructor | ags/widgets/sidebar/main.tsx:20-59 | the panel starts on the widgets page with the filtered list computed and the page list following from it |
| Sidebar.SidebarPanel.UpdateFilteredWidgets | ags/widgets/sidebar/main.tsx:31-41 | stores the filtered list and recomputes the page list from it; the page is unchanged |
| Sidebar.SidebarPanel.UpdateWidgetsForMode | ags/widgets/sidebar/main.tsx:43-53 | the page list of the given list, or of the stored filtered list when none is given |
| Sidebar.SidebarPanel.SetCurrentMode | ags/widgets/sidebar/main.tsx:57-101 | a mode button switches the page and the page list is recomputed from the stored filtered list |
| CheatSheet.ClampTab | ags/utils/cheatsheet.ts:220-222 | the stored tab is always 0 or 1; an in-range index is kept, a negative one becomes 0 and a too-large one the last tab |
| CheatSheet.ClampTabIdempotent | ags/utils/cheatsheet.ts:221 | clamping a clamped index changes nothing |
| CheatSheet.TabsShape | ags/utils/cheatsheet.ts:27-30 | exactly two tabs, Keybinds then Elements, so every clamped index is 0 or 1 |
| CheatSheet.CheatSheetService.constructor | ags/utils/cheatsheet.ts:192-193 | hidden, on the first tab |
| CheatSheet.CheatSheetService.Show | ags/utils/cheatsheet.ts:212-214 | visible, tab unchanged, the tab invariant kept |
| CheatSheet.CheatSheetService.Hide | ags/utils/cheatsheet.ts:216-218 | hidden, tab unchanged, the tab invariant kept |
| CheatSheet.CheatSheetService.SetTab | ags/utils/cheatsheet.ts:220-222 | stores the clamped index; visibility unchanged |
| Dock.DockShown | ags/widgets/dock/main.tsx:135-137 | the dock is not rendered exactly when it is disabled or the bar is at the bottom |
| Dock.PlanClick | ags/widgets/dock/main.tsx:32-67 | a click launches exactly when no client's class matches the app's ignoring case, and a launch issues only the exec command; otherwise one or two hyprctl commands |
| Dock.PlanOtherWorkspace | ags/widgets/dock/main.tsx:57-61 | for the first matching client on another workspace (no focused workspace counting as -1), switch to its workspace and then focus its window |
| Dock.PlanSameWorkspace | ags/widgets/dock/main.tsx:45-56 | for the first matching client on the focused workspace, minimise it when it is the focused window, focus it otherwise |
| Dock.ButtonClasses | ags/widgets/dock/main.tsx:75-92 | "dock-item" first and once; "running" exactly when some client matches, "active" exactly when the focused client has a non-empty matching class, "launching" exactly when launching |
| Dock.RunningIffNoLaunch | ags/widgets/dock/main.tsx:35-80 | a button shows as running exactly when clicking it does not launch |
| Dock.DockClasses | ags/widgets/dock/main.tsx:139-143 | "dock" first; "hidden" exactly when not revealed and auto-hide is on |
| Dock.ClickLaws | ags/widgets/dock/main.tsx:32-72 | a click appends a prefix of its plan's commands to those already sent; a failure clears `launching`; a successful launch sets it and arms one more reset; a successful focus leaves it alone |
| Dock.AppButton.constructor | ags/widgets/dock/main.tsx:30 | not launching, nothing sent, no reset armed |
| Dock.AppButton.HandleClick | ags/widgets/dock/main.tsx:32-72 | the button's new state is the click step of the plan for the current Hyprland state |
| Dock.AppButton.ResetFires | ags/widgets/dock/main.tsx:65 | the 600 ms reset clears `launching` |
| Dock.EnterCancels | ags/widgets/dock/main.tsx:145-152 | entering reveals the dock, forgets the stored hide handle and cancels that timer, and arms nothing |
| Dock.OnEventValid | ags/widgets/dock/main.tsx:145-162 | every event keeps all armed and stored hide handles below the next handle |
| Dock.NoAutoHideStaysRevealed | ags/widgets/dock/main.tsx:154-183 | without auto-hide, any event sequence leaves the dock revealed with no hide armed |
| Dock.LeaveThenEnter | ags/widgets/dock/main.tsx:145-162 | leaving and re-entering before the timer fires leaves the dock revealed with no hide pending |
| Dock.DockReveal.constructor | ags/widgets/dock/main.tsx:130-132 | revealed, nothing hovered, no hide stored or armed |
| Dock.DockReveal.MouseEnter | ags/widgets/dock/main.tsx:145-152 | the new state is the enter step: the stored timer cleared and forgotten, the dock revealed |
| Dock.DockReveal.MouseLeave | ags/widgets/dock/main.tsx:154-162 | with auto-hide a fresh 300 ms hide is armed and stored; without it nothing changes |
| Dock.DockReveal.HideFires | ags/widgets/dock/main.tsx:156-159 | an armed hide conceals the dock and clears the hovered button; a cleared one does nothing |
| Dock.DockReveal.SetHoveredIndex | ags/widgets/dock/main.tsx:102-108 | only the hovered index changes |
| Clipboard.Lines | ags/utils/clipboard/index.ts:108 | at most 50 lines, each non-empty and free of newlines |
| Clipboard.KeptLines | ags/utils/clipboard/index.ts:108 | every piece `filter(Boolean)` keeps is non-empty and holds no newline |
| Clipboard.LinesKept | ags/utils/clipboard/index.ts:108 | the lines are an order-preserving subsequence of the newline-separated pieces, and with at most 50 non-empty pieces every one of them is kept |
| Clipboard.TabSplitLaws | ags/utils/clipboard/index.ts:113-115 | the id holds no tab; with a tab, id, tab and content rebuild the line; without one the id is empty and the content is the whole line |
| Clipboard.Preview | ags/utils/clipboard/index.ts:156 | at most 100 characters; the content itself exactly when it fits; otherwise its first 97 characters and "..." |
| Clipboard.MatchAt | ags/utils/clipboard/index.ts:118 | a match at a position yields an "image/" type with a non-empty subtype and no closing bracket |
| Clipboard.FirstMatch | ags/utils/clipboard/index.ts:118 | the position found is -1 or within the string from the start position on |
| Clipboard.FirstMatchLaws | ags/utils/clipboard/index.ts:118 | the position found matches and no earlier position does; -1 means no position matches |
| Clipboard.Extension | ags/utils/clipboard/index.ts:122 | the extension is never empty and holds no slash |
| Clipboard.ExtensionOfImage | ags/utils/clipboard/index.ts:121-122 | for the type `image/<sub>` the extension is `sub` |
| Clipboard.Escape | ags/utils/clipboard/index.ts:127 | a string without single quotes is left as it is |
| Clipboard.Unquote | ags/utils/clipboard/index.ts:127 | reading each `'"'"'` group back as a quote never lengthens the text |
| Clipboard.EscapeLaws | ags/utils/clipboard/index.ts:127 | reading the groups back gives the original string; every single quote of the escaped text sits inside a whole `'"'"'` group, so the quoted shell word is only ever closed by a group; escaping never shortens |
| Clipboard.ParseLineLaws | ags/utils/clipboard/index.ts:111-158 | the entry keeps the whole line and the id before the tab; it is an image exactly when the marker matches somewhere in the content, and then has an image type and a thumbnail path exactly when the decode succeeded; text entries carry the preview and no image fields |
| Clipboard.ParseLines | ags/utils/clipboard/index.ts:111-161 | one entry per line, each parsed from its own line, in order |
| Clipboard.Matching | ags/utils/clipboard/index.ts:172-173 | the matching entries form an order-preserving subsequence of the entries |
| Clipboard.FilterLaws | ags/utils/clipboard/index.ts:171-176 | exactly the entries whose lowercased content contains the lowercased query, in order; the index clamped to at most max(0, n-1) and kept when in range; every callback notified once |
| Clipboard.EmptyQueryShowsAll | ags/utils/clipboard/index.ts:172-173 | an empty query keeps every entry |
| Clipboard.LoadLaws | ags/utils/clipboard/index.ts:101-169 | a failed listing leaves both lists empty; otherwise one entry per kept line, parsed from it, and a filtered subsequence with the index clamped; `cliphist list` is the first command issued |
| Clipboard.UpDownLaws | ags/utils/clipboard/index.ts:237-249 | on an empty list up and down do nothing; from an in-range index they move by one without wrapping and stay in range (every reachable state has one, by `StepsKeepIndexInRange`) |
| Clipboard.FilterLoadEndInRange | ags/utils/clipboard/index.ts:171-176 | filtering, and so loading, leaves the index inside a non-empty list whatever it was before |
| Clipboard.SelectKeepsIndexInRange | ags/utils/clipboard/index.ts:178-214 | selecting and wiping keep a non-empty list's index in range |
| Clipboard.KeyKeepsIndexInRange | ags/utils/clipboard/index.ts:251-268 | every key keeps a non-empty list's index in range |
| Clipboard.StepsKeepIndexInRange | ags/utils/clipboard/index.ts:171-279 | a fresh manager has its index in range whenever the list is non-empty, and every operation (load, filter, select, wipe, show, hide, toggle, up, down, key, search, clear search, the deferred update, the callback setters, the focus hook) keeps it so |
| Clipboard.HideAndClearLaws | ags/utils/clipboard/index.ts:224-230 | hiding gives an invisible select-mode view with no query at index 0 and the lists untouched; clearing the search (`clearSearch`, lines 275-279) shows every entry from index 0 |
| Clipboard.ModeKeys | ags/utils/clipboard/index.ts:232-263 | Tab flips the mode so two Tabs restore it; Delete always ends in delete mode and does nothing when already there |
| Clipboard.SelectOutOfRange | ags/utils/clipboard/index.ts:187-189 | selecting where there is no entry changes nothing |
| Clipboard.SelectLaws | ags/utils/clipboard/index.ts:187-214 | in select mode the entry is copied and the view hidden; in delete mode its delete command is issued next |
| Clipboard.OnUpdateReplaces | ags/utils/clipboard/index.ts:89-95 | after setting `onUpdate`, a notification calls exactly that callback, or none |
| Clipboard.ClipboardManager.constructor | ags/utils/clipboard/index.ts:15-23 | empty lists, index 0, select mode, no query, hidden, no callbacks |
| Clipboard.ClipboardManager.AddUpdateCallback | ags/utils/clipboard/index.ts:75-77 | the callback is appended and nothing else changes |
| Clipboard.ClipboardManager.TriggerUpdate | ags/utils/clipboard/index.ts:79-87 | every registered callback is called, in order |
| Clipboard.ClipboardManager.SetOnUpdate | ags/utils/clipboard/index.ts:89-95 | the callbacks become the given one, or none |
| Clipboard.ClipboardManager.SetFocusSearch | ags/utils/clipboard/index.ts:23 | only the presence of the focus hook changes |
| Clipboard.ClipboardManager.Load | ags/utils/clipboard/index.ts:101-169 | the new state is the load step for the given listing and decode results |
| Clipboard.ClipboardManager.Filter | ags/utils/clipboard/index.ts:171-176 | the new state is the filter step |
| Clipboard.ClipboardManager.ClearAll | ags/utils/clipboard/index.ts:178-185 | issues `cliphist wipe` and reloads only when it succeeds |
| Clipboard.ClipboardManager.Select | ags/utils/clipboard/index.ts:187-214 | the new state is the select step |
| Clipboard.ClipboardManager.Show | ags/utils/clipboard/index.ts:216-222 | visible, then loaded |
| Clipboard.ClipboardManager.Hide | ags/utils/clipboard/index.ts:224-230 | the new state is the hide step |
| Clipboard.ClipboardManager.ToggleMode | ags/utils/clipboard/index.ts:232-235 | the mode flips and one notification is deferred |
| Clipboard.ClipboardManager.RunDeferredUpdate | ags/utils/clipboard/index.ts:234-261 | a deferred notification, if any, calls every callback |
| Clipboard.ClipboardManager.Up | ags/utils/clipboard/index.ts:237-242 | the new state is the up step |
| Clipboard.ClipboardManager.Down | ags/utils/clipboard/index.ts:244-249 | the new state is the down step |
| Clipboard.ClipboardManager.Key | ags/utils/clipboard/index.ts:251-268 | the new state is the key step: Escape, Return, Up, Down, Tab and Delete dispatch, any other key asks for the search focus |
| Clipboard.ClipboardManager.Search | ags/utils/clipboard/index.ts:270-273 | stores the query and filters |
| Clipboard.ClipboardManager.ClearSearch | ags/utils/clipboard/index.ts:275-279 | empties the query, goes to index 0 and filters |
| WindowSwitcher.OrElse | ags/utils/windowSwitcher/index.ts:67-68 | the first non-empty of the two strings, or the fallback when both are empty |
| WindowSwitcher.ToWindow | ags/utils/windowSwitcher/index.ts:65-75 | a window's title and class are never empty |
| WindowSwitcher.Mapped | ags/utils/windowSwitcher/index.ts:65-75 | one window per client, each converted from its own client, in order |
| WindowSwitcher.WindowsLaws | ags/utils/windowSwitcher/index.ts:63-83 | the windows are sorted by workspace id and then x position, are a permutation of the converted shown clients, and each comes from a client that is mapped and not hidden |
| WindowSwitcher.MatchingWindows | ags/utils/windowSwitcher/index.ts:95-98 | the matching windows form an order-preserving subsequence of the windows |
| WindowSwitcher.FilterLaws | ags/utils/windowSwitcher/index.ts:93-101 | exactly the windows whose lowercased title or class contains the lowercased query, in order; the index clamped to at most max(0, n-1) and kept when in range |
| WindowSwitcher.LoadLaws | ags/utils/windowSwitcher/index.ts:55-91 | a failed listing or parse leaves both lists empty; otherwise the windows are the sorted shown clients, filtered, with the index clamped |
| WindowSwitcher.ModNext | ags/utils/windowSwitcher/index.ts:136 | one step forward on a cycle of n positions wraps from the last to the first |
| WindowSwitcher.ModPrev | ags/utils/windowSwitcher/index.ts:145 | one step back on a cycle of n positions wraps from the first to the last |
| WindowSwitcher.CycleLaws | ags/utils/windowSwitcher/index.ts:134-167 | on an empty list next and prev do nothing; otherwise they wrap around, stay in range, keep the list and record the keyboard time |
| WindowSwitcher.PrevAfterNext | ags/utils/windowSwitcher/index.ts:134-149 | next then prev, or prev then next, returns to the index, for every state whose index is in range when the list is non-empty |
| WindowSwitcher.FilterLoadEndInRange | ags/utils/windowSwitcher/index.ts:93-101 | filtering, and so loading, leaves the index inside a non-empty list whatever it was before |
| WindowSwitcher.SelectKeyKeepIndexInRange | ags/utils/windowSwitcher/index.ts:103-193 | selecting, whether a command fails or the switcher hides, and every key keep a non-empty list's index in range |
| WindowSwitcher.CycleKeepsIndexInRange | ags/utils/windowSwitcher/index.ts:134-158 | next and prev leave the index inside a non-empty list |
| WindowSwitcher.StepsKeepIndexInRange | ags/utils/windowSwitcher/index.ts:93-204 | a fresh switcher has its index in range whenever the list is non-empty, and every operation (load, filter, select, show, hide, next, prev, key, search, clear search, the callback setters, the focus hook) keeps it so; so `PrevAfterNext` applies in every reachable state |
| WindowSwitcher.KeyDispatch | ags/utils/windowSwitcher/index.ts:169-193 | Escape hides, Return selects the current window, Tab and Down go forward, Shift+Tab and Up go back |
| WindowSwitcher.HideShowSelectLaws | ags/utils/windowSwitcher/index.ts:103-131 | hiding clears the query and goes to the top; showing makes the switcher visible and resets the keyboard time; selecting where there is no window does nothing |
| WindowSwitcher.SelectDispatches | ags/utils/windowSwitcher/index.ts:103-116 | a selection that succeeds dispatches the workspace switch, then the focus, and hides |
| WindowSwitcher.WindowSwitcherManager.constructor | ags/utils/windowSwitcher/index.ts:19-27 | empty lists, index 0, no query, hidden, no callbacks, keyboard time 0 |
| WindowSwitcher.WindowSwitcherManager.AddUpdateCallback | ags/utils/windowSwitcher/index.ts:29-31 | the callback is appended and nothing else changes |
| WindowSwitcher.WindowSwitcherManager.TriggerUpdate | ags/utils/windowSwitcher/index.ts:33-41 | every registered callback is called, in order |
| WindowSwitcher.WindowSwitcherManager.SetOnUpdate | ags/utils/windowSwitcher/index.ts:43-49 | the callbacks become the given one, or none |
| WindowSwitcher.WindowSwitcherManager.SetFocusSearch | ags/utils/windowSwitcher/index.ts:26 | only the presence of the focus hook changes |
| WindowSwitcher.WindowSwitcherManager.Load | ags/utils/windowSwitcher/index.ts:55-91 | the new state is the load step for the given client list |
| WindowSwitcher.WindowSwitcherManager.Filter | ags/utils/windowSwitcher/index.ts:93-101 | the new state is the filter step |
| WindowSwitcher.WindowSwitcherManager.Select | ags/utils/windowSwitcher/index.ts:103-116 | the new state is the select step: a failing command stops the sequence and leaves the switcher shown |
| WindowSwitcher.WindowSwitcherManager.Show | ags/utils/windowSwitcher/index.ts:118-124 | visible, keyboard time 0, then loaded |
| WindowSwitcher.WindowSwitcherManager.Hide | ags/utils/windowSwitcher/index.ts:126-131 | the new state is the hide step |
| WindowSwitcher.WindowSwitcherManager.Next | ags/utils/windowSwitcher/index.ts:134-167 | the new state is the next step |
| WindowSwitcher.WindowSwitcherManager.Prev | ags/utils/windowSwitcher/index.ts:143-158 | the new state is the prev step |
| WindowSwitcher.WindowSwitcherManager.Key | ags/utils/windowSwitcher/index.ts:169-193 | the new state is the key step |
| WindowSwitcher.WindowSwitcherManager.Search | ags/utils/windowSwitcher/index.ts:195-198 | stores the query and filters |
| WindowSwitcher.WindowSwitcherManager.ClearSearch | ags/utils/windowSwitcher/index.ts:200-204 | empties the query, goes to index 0 and filters |
| WindowGrid.MatchLine | ags/widgets/window-switcher/modules/WindowGrid.tsx:31 | a match has a non-empty key and a non-empty value |
| WindowGrid.MatchLineLaws | ags/widgets/window-switcher/modules/WindowGrid.tsx:31 | a match splits the line into non-blank key, blanks, `=` or `:`, blanks, non-blank value, with the longest key the pattern allows; no match means no split fits the pattern |
| WindowGrid.ShapeIsGreedy | ags/widgets/window-switcher/modules/WindowGrid.tsx:31 | any split that fits the pattern has its value where the greedy reading of the blanks puts it |
| WindowGrid.GreedyIsShape | ags/widgets/window-switcher/modules/WindowGrid.tsx:31 | a key the greedy reading accepts gives a split that fits the pattern |
| WindowGrid.WellFormedLine | ags/widgets/window-switcher/modules/WindowGrid.tsx:27-33 | a line `key`, blanks, separator, blanks, `value` yields exactly that pair when the key is not a comment and the value holds no separator |
| WindowGrid.WellFormedMatch | ags/widgets/window-switcher/modules/WindowGrid.tsx:31 | the pattern reads such a trimmed line as exactly that key and value |
| WindowGrid.LastValueLaws | ags/widgets/window-switcher/modules/WindowGrid.tsx:26-35 | the reference reading finds no value exactly when no line assigns the key, and otherwise the value of the last line that does |
| WindowGrid.BuildLookup | ags/widgets/window-switcher/modules/WindowGrid.tsx:26-35 | storing the pairs in turn leaves each key with its last value, and keys stay unique |
| WindowGrid.ParsedLookup | ags/widgets/window-switcher/modules/WindowGrid.tsx:25-36 | the parsed table maps each key to the value on the last line that assigns it; keys are unique |
| WindowGrid.BuildSnoc | ags/widgets/window-switcher/modules/WindowGrid.tsx:32-34 | one more line stores its pair into the table, or leaves it unchanged when it has none |
| WindowGrid.IgnoredLine | ags/widgets/window-switcher/modules/WindowGrid.tsx:28-34 | a blank, comment or malformed line can be inserted anywhere without changing the table |
| WindowGrid.ParsedNext | ags/widgets/window-switcher/modules/WindowGrid.tsx:26-35 | after one more line, the table is the earlier one with that line's pair stored, if it has one |
| WindowGrid.ParseLines | ags/widgets/window-switcher/modules/WindowGrid.tsx:25-36 | the loop's table is the parsed table of the file's lines, and its keys are unique |
| WindowGrid.LoadIconMappings | ags/widgets/window-switcher/modules/WindowGrid.tsx:6-52 | the built-in table when the file cannot be read; the JSON object when it parses; otherwise the line table, which maps each key to its last assigned value |
| WindowGrid.FirstIcon | ags/widgets/window-switcher/modules/WindowGrid.tsx:60-63 | the icon of the first key, in table order, that occurs in the string; "apps" when none does |
| WindowGrid.GetIcon | ags/widgets/window-switcher/modules/WindowGrid.tsx:58-64 | the icon of the first key contained in the lowercased class; "apps" when none is |
| WindowGrid.CardTitle | ags/widgets/window-switcher/modules/WindowGrid.tsx:106 | at most 25 characters; the title when it fits, else its first 22 characters and "..." |
| WindowGrid.CreateWindowCard | ags/widgets/window-switcher/modules/WindowGrid.tsx:68-156 | styled "window-card", and "selected" exactly for the selected card; the class's icon; a short title; a "Full" badge exactly for fullscreen and a "Float" badge exactly for floating windows |
| WindowGrid.PlaceholderText | ags/widgets/window-switcher/modules/WindowGrid.tsx:173 | "No matching windows" exactly when a query is typed, "No windows open" exactly when not |
| WindowGrid.RowCount | ags/widgets/window-switcher/modules/WindowGrid.tsx:184 | the least number of rows of five that holds every window |
| WindowGrid.ClampIndex | ags/widgets/window-switcher/modules/WindowGrid.tsx:179-181 | the clamped selection is in range, unchanged when already in range, the last position otherwise |
| WindowGrid.RowsPartition | ags/widgets/window-switcher/modules/WindowGrid.tsx:184-204 | each position sits in exactly one cell (row i / 5, column i % 5), every cell is a position, and every row holds one to five cards |
| WindowGrid.Rebuild | ags/widgets/window-switcher/modules/WindowGrid.tsx:158-205 | unmounted: nothing changes; an empty list gives the placeholder; otherwise the selection is clamped and row r, column c holds the card of window 5r+c, marked selected exactly at the selection |
| WindowGrid.BuildRow | ags/widgets/window-switcher/modules/WindowGrid.tsx:193-201 | one card per window from `start` to `end`, each with its position and marked selected exactly at the selection |
| Timers.FindTimer | ags/utils/timer.ts:79 | the position of the first timer with the id, or -1 exactly when no timer has it |
| Timers.RoundSeconds | ags/utils/timer.ts:99 | the whole number of seconds nearest the milliseconds, halves rounding up |
| Timers.FindUnique | ags/utils/timer.ts:44-79 | with distinct ids, every timer is the one found for its id |
| Timers.ValidOneRunning | ags/utils/timer.ts:82-91 | under the service invariant at most one timer runs |
| Timers.SameRunningValid | ags/utils/timer.ts:110-111 | changing a timer's fields other than its id and running flag keeps the invariant |
| Timers.StopRunningValid | ags/utils/timer.ts:113-118 | stopping the running timer and dropping its interval and the active id keeps the invariant |
| Timers.AddLaws | ags/utils/timer.ts:51-68 | a fresh id is appended as an idle, unnotified timer with its name and the given duration in seconds (`durationMinutes * 60`), full remaining time; the others are unchanged and the invariant holds |
| Timers.StopValid | ags/utils/timer.ts:128-146 | stopping keeps the invariant and takes the id out of the running ids |
| Timers.StopLaws | ags/utils/timer.ts:128-146 | only the found timer changes, to not running; its interval is dropped; the active id is cleared exactly when it was this id; nothing is sent |
| Timers.StopOthersShape | ags/utils/timer.ts:83-85 | after the first k turns of the loop every timer before k with another id is stopped, the rest are untouched, and only running flags ever change |
| Timers.StopOthersValid | ags/utils/timer.ts:83-85 | every prefix of the loop keeps the invariant |
| Timers.NoneRunningAfterStopOthers | ags/utils/timer.ts:79-85 | when the started timer is idle, the loop leaves no timer running, no interval and no active id |
| Timers.MarkRunning | ags/utils/timer.ts:87-124 | marking the timer leaves it the only running one, active, unnotified, with the only interval |
| Timers.StartLaws | ags/utils/timer.ts:76-125 | a missing or running timer changes nothing; otherwise it becomes the only running timer and the active one, with one interval ending `remaining` seconds from now; the invariant holds |
| Timers.StartTimers | ags/utils/timer.ts:76-92 | starting an idle timer marks it running and unnotified and stops every other timer |
| Timers.LiveIntervalFound | ags/utils/timer.ts:103-108 | under the invariant a live interval's timer is present and running |
| Timers.TickExpired | ags/utils/timer.ts:113-120 | a tick reaching zero stops the timer, notifies it, clears the active id and the interval, and keeps the invariant |
| Timers.TickLaws | ags/utils/timer.ts:97-122 | without a live interval nothing changes; otherwise the timer's remaining time is the rounded seconds left, never negative; above zero it keeps running; at zero it stops, is notified, and the active id and interval go; other timers are untouched |
| Timers.TickValid | ags/utils/timer.ts:97-122 | a tick keeps the invariant |
| Timers.RemoveFilters | ags/utils/timer.ts:70-74 | removal keeps exactly the timers with another id, in order |
| Timers.RemoveLaws | ags/utils/timer.ts:70-74 | with distinct ids, removal deletes the one timer with that id, drops its interval and active id, and keeps the invariant |
| Timers.ResetLaws | ags/utils/timer.ts:148-159 | the found timer is stopped with its full duration restored and `notified` cleared; the others are unchanged; the invariant holds |
| Timers.NotifyOnce | ags/utils/timer.ts:23-49 | a notified timer sends nothing; otherwise the notification and the sound go out and the timer is marked, so a second notify does nothing |
| Timers.FormatTimeLong | ags/utils/timer.ts:171-178 | from one hour on: three colon-separated numerals, the hours, then two-digit minutes and seconds |
| Timers.FormatTimeShort | ags/utils/timer.ts:171-179 | below one hour: two colon-separated numerals, the minutes and the two-digit seconds |
| Timers.FormatTimeFields | ags/utils/timer.ts:171-180 | the fields are all digits, the padded ones two long, and they read back as the number of seconds formatted |
| Timers.ClockArithmetic | ags/utils/timer.ts:172-174 | hours, minutes below 60 and seconds add back up to the total |
| Timers.TimerService.constructor | ags/utils/timer.ts:15-21 | no timers, no active id, no intervals; the invariant holds |
| Timers.TimerService.AddTimer | ags/utils/timer.ts:51-68 | returns the drawn id and the new state is the add step |
| Timers.TimerService.StopTimer | ags/utils/timer.ts:128-146 | the new state is the stop step |
| Timers.TimerService.RemoveTimer | ags/utils/timer.ts:70-74 | the new state is the remove step |
| Timers.TimerService.ResetTimer | ags/utils/timer.ts:148-159 | the new state is the reset step |
| Timers.TimerService.StartTimer | ags/utils/timer.ts:76-125 | the new state is the start step |
| Timers.TimerService.StopOthersLoop | ags/utils/timer.ts:83-85 | the loop's state is the specification of all its turns |
| Timers.TimerService.Notify | ags/utils/timer.ts:23-49 | the new state is the notify step |
| Timers.TimerService.Tick | ags/utils/timer.ts:97-122 | the new state is the tick step |
| CavaState.Decayed | ags/widgets/music/modules/cava/utils/types.ts:87 | one aged particle per particle, each with its life reduced by the frame time |
| CavaState.SurvivorsAreKept | ags/widgets/music/modules/cava/utils/types.ts:82-97 | the compaction loop leaves exactly what filtering the aged particles for positive life leaves |
| CavaState.SurvivorsLaws | ags/widgets/music/modules/cava/utils/types.ts:82-97 | never more particles than before, every survivor has positive life, they keep their order, every particle whose aged life is positive survives, and every survivor is an aged original |
| CavaState.KeptCons | ags/widgets/music/modules/cava/utils/types.ts:85-95 | the first particle survives, aged, exactly when its aged life is positive, ahead of the others' survivors |
| CavaState.KeptCompose | ags/widgets/music/modules/cava/utils/types.ts:82-97 | with a non-negative second frame time, two updates equal one update by the summed time |
| CavaState.SurvivorsCompose | ags/widgets/music/modules/cava/utils/types.ts:82-97 | the same for the loop's own result |
| CavaState.CompactRound | ags/widgets/music/modules/cava/utils/types.ts:86-94 | one round of the loop keeps the written prefix equal to the survivors of the particles read, and the unread tail untouched |
| CavaState.ParticleState.constructor | ags/widgets/music/modules/cava/utils/types.ts:39-45 | no particles, time 0, cap 200 |
| CavaState.ParticleState.Clear | ags/widgets/music/modules/cava/utils/types.ts:66-69 | no particles, time 0 |
| CavaState.ParticleState.UpdateParticles | ags/widgets/music/modules/cava/utils/types.ts:82-97 | the particles become the survivors of the aged old particles, in order; the time is unchanged |
| CavaState.PushFrameLaws | ags/widgets/music/modules/cava/utils/types.ts:107-112 | within the cap, the new frame goes first, every older frame moves back by one and the oldest is dropped once the cap is passed |
| CavaState.Reverse | ags/widgets/music/modules/cava/utils/types.ts:107 | the frames in reverse order |
| CavaState.HistoryIsRecentFrames | ags/widgets/music/modules/cava/utils/types.ts:100-113 | after pushing frames one by one, the history is the most recent frames, newest first, then the old history, cut at the cap |
| CavaState.WaterfallState.constructor | ags/widgets/music/modules/cava/utils/types.ts:47-53 | no frames, cap 30, transition 0.3 |
| CavaState.WaterfallState.Clear | ags/widgets/music/modules/cava/utils/types.ts:71-73 | no frames |
| CavaState.WaterfallState.AddWaterfallFrame | ags/widgets/music/modules/cava/utils/types.ts:100-113 | the history becomes the push of a copy of the values onto the old history |
| CavaState.Zeros | ags/widgets/music/modules/cava/utils/types.ts:122-123 | n zeros |
| CavaState.ResizedLaws | ags/widgets/music/modules/cava/utils/types.ts:116-130 | growing keeps the values and appends zeros up to `min(bars, 100)`; otherwise the array is cut to `bars`; within the cap it stays within it, and for a bar count within the cap it has exactly that length |
| CavaState.ResizedIdempotent | ags/widgets/music/modules/cava/utils/types.ts:116-130 | asking for the same number of bars twice changes nothing the second time |
| CavaState.JumpingBarsState.constructor | ags/widgets/music/modules/cava/utils/types.ts:55-62 | empty heights and velocities, time 0, cap 100 |
| CavaState.JumpingBarsState.Clear | ags/widgets/music/modules/cava/utils/types.ts:75-79 | empty heights and velocities, time 0 |
| CavaState.JumpingBarsState.EnsureBarArrays | ags/widgets/music/modules/cava/utils/types.ts:116-130 | both arrays become the resized old arrays and stay the same length; the time is unchanged |
| Visualization.Clamp | ags/widgets/music/modules/cava/utils/visualization.ts:128-130 | within a non-empty range the result lies in it and a value already inside is unchanged; an empty range gives its lower end |
| Visualization.SumBounds | ags/widgets/music/modules/cava/utils/visualization.ts:119-122 | k values between lo and hi sum to between k*lo and k*hi |
| Visualization.SumConst | ags/widgets/music/modules/cava/utils/visualization.ts:119-122 | k copies of c sum to k*c |
| Visualization.ShouldVisualize | ags/widgets/music/modules/cava/utils/visualization.ts:1-16 | true exactly when there are bars, the values exist and are non-empty, and some value reaches the 0.001 threshold |
| Visualization.NormalizedLaws | ags/widgets/music/modules/cava/utils/visualization.ts:48-73 | one value per bar, each in [0, 1], and all zero without values |
| Visualization.BinBounds | ags/widgets/music/modules/cava/utils/visualization.ts:57-58 | each bin starts no later than it ends, and ends within the input |
| Visualization.BinNonEmpty | ags/widgets/music/modules/cava/utils/visualization.ts:57-58 | with at least as many values as bars no bin is empty |
| Visualization.NormalizedConstant | ags/widgets/music/modules/cava/utils/visualization.ts:53-70 | a constant signal in [0, 1] resampled onto no more bars than values keeps that constant in every bar |
| Visualization.NormalizeValues | ags/widgets/music/modules/cava/utils/visualization.ts:48-73 | the two loops compute bar by bar the clamped mean of each bin, or zeros without values |
| Visualization.SmoothedLaws | ags/widgets/music/modules/cava/utils/visualization.ts:76-98 | as long as the target; the target itself without current values and past their end; with a factor in [0, 1] each value lies between the current value and the target, reaching the target for 1 and staying put for 0 |
| Visualization.Between | ags/widgets/music/modules/cava/utils/visualization.ts:89 | a step of t in [0, 1] from a towards b stays between a and b |
| Visualization.SmoothValues | ags/widgets/music/modules/cava/utils/visualization.ts:76-98 | the two loops compute the smoothed values |
| Visualization.FindPeaks | ags/widgets/music/modules/cava/utils/visualization.ts:101-113 | strictly increasing indices, and an index is listed exactly when it is interior, above the threshold and above both neighbours |
| Visualization.PeaksNotAdjacent | ags/widgets/music/modules/cava/utils/visualization.ts:104-110 | two neighbouring positions are never both peaks |
| Visualization.AverageBounds | ags/widgets/music/modules/cava/utils/visualization.ts:116-125 | the average of values between lo and hi lies between them |
| Visualization.AverageConstant | ags/widgets/music/modules/cava/utils/visualization.ts:116-125 | the average of a constant signal is that constant |
| Visualization.CalculateAverage | ags/widgets/music/modules/cava/utils/visualization.ts:116-125 | 0 without values, else the loop's sum divided by the count |
| WallpaperTypes.ModeIndex | ags/utils/wallpaper/types.ts:9-13 | every mode has a row in the mode table |
| WallpaperTypes.SchemeIndex | ags/utils/wallpaper/types.ts:15-22 | every scheme has a row in the scheme table |
| WallpaperTypes.ModeFromValue | ags/utils/wallpaper/types.ts:24 | a recognised string is the value of the mode it names |
| WallpaperTypes.SchemeFromValue | ags/utils/wallpaper/types.ts:25 | a recognised string is the value of the scheme it names |
| WallpaperTypes.ModeTable | ags/utils/wallpaper/types.ts:9-13 | exactly three rows, auto, light and dark in that order, each standing for a mode |
| WallpaperTypes.SchemeTable | ags/utils/wallpaper/types.ts:15-22 | exactly six rows, auto and the five schemes in table order, each standing for a scheme |
| WallpaperTypes.ModeValueSet | ags/utils/wallpaper/types.ts:9-24 | a string is a mode exactly when it is a value of the table, and decoding a mode's value gives the mode back |
| WallpaperTypes.SchemeValueSet | ags/utils/wallpaper/types.ts:15-25 | a string is a scheme exactly when it is a value of the table, and decoding a scheme's value gives the scheme back |
| WallpaperTypes.ToCached | ags/utils/wallpaper/types.ts:27-36 | a cache record carries every analysis field unchanged and the given timestamp |
| WallpaperTypes.CachedRoundTrip | ags/utils/wallpaper/types.ts:34-36 | a cache record is its analysis plus its timestamp |
| ThemeRules.ScanLine | ags/utils/wallpaper/WallpaperStore.ts:448-464 | a line naming "light" sets light (else "dark" sets dark) and a line naming "neutral" sets neutral (else "rainbow" sets rainbow), each with its tone or chroma; a line naming neither leaves that half unchanged; derived analyses stay derived |
| ThemeRules.ParseChromashThemeOutput | ags/utils/wallpaper/WallpaperStore.ts:440-471 | the loop over the trimmed, newline-split report returns exactly the line-by-line scan from dark/20/rainbow/40, and never null |
| ThemeRules.ParseLinesDerived | ags/utils/wallpaper/WallpaperStore.ts:442-464 | scanning any lines from a derived analysis yields light or dark with tone 80 or 20, and neutral or rainbow with chroma 10 or 40 |
| ThemeRules.ParseOutputDerived | ags/utils/wallpaper/WallpaperStore.ts:440-466 | every parsed report is such a derived analysis |
| ThemeRules.LastModeLine | ags/utils/wallpaper/WallpaperStore.ts:448-455 | the index of the last line naming "light" or "dark", or -1 when none does |
| ThemeRules.LastSchemeLine | ags/utils/wallpaper/WallpaperStore.ts:448-463 | the index of the last line naming "neutral" or "rainbow", or -1 when none does |
| ThemeRules.ParseMode | ags/utils/wallpaper/WallpaperStore.ts:448-455 | the mode is decided by the last line naming light or dark ("light" winning on that line) and is the starting mode when no line names either |
| ThemeRules.ParseScheme | ags/utils/wallpaper/WallpaperStore.ts:457-463 | the scheme is decided by the last line naming neutral or rainbow ("neutral" winning on that line) and is the starting scheme when no line names either |
| ThemeRules.ParseDefaults | ags/utils/wallpaper/WallpaperStore.ts:442-445 | a report naming none of the four words yields dark, tone 20, rainbow, chroma 40 |
| ThemeRules.StripTrailingSlashes | ags/utils/wallpaper/WallpaperStore.ts:474 | the result is a prefix of the path with no trailing "/", and everything dropped is "/" |
| ThemeRules.AfterLastSlash | ags/utils/wallpaper/WallpaperStore.ts:474 | the result is the longest suffix holding no "/", preceded by "/" whenever it is not the whole string |
| ThemeRules.Basename | ags/utils/wallpaper/WallpaperStore.ts:474 | the base name is never empty and holds no "/" unless it is "/" itself |
| ThemeRules.AfterLastSlashOfChild | ags/utils/wallpaper/WallpaperStore.ts:474 | the text after the last slash of dir/name is name |
| ThemeRules.BasenameOfChild | ags/utils/wallpaper/WallpaperStore.ts:474 | the base name of a file joined onto any directory is the file's own name |
| ThemeRules.FallbackColorAnalysis | ags/utils/wallpaper/WallpaperStore.ts:473-515 | the guess is always light or dark with tone 80 or 20, and neutral or rainbow with chroma 10 or 40 |
| ThemeRules.FallbackMode | ags/utils/wallpaper/WallpaperStore.ts:480-507 | a light word wins over a dark word, neither leaves light to hours 6 to 17 and dark otherwise; any of the six neutral words gives neutral, else rainbow |
| ThemeRules.FallbackUsesOnlyName | ags/utils/wallpaper/WallpaperStore.ts:474 | the guess depends only on the file's name, not on its directory nor on the case of its letters |
| ThemeRules.Merge | ags/utils/wallpaper/WallpaperStore.ts:426-431 | the effective analysis keeps the automatic tone and chroma |
| ThemeRules.MergeLaws | ags/utils/wallpaper/WallpaperStore.ts:426-431 | with both choices on auto the automatic analysis passes through; a manual mode or scheme always wins whatever was detected; merging twice changes nothing |
| ThemeRules.ManualAnalysis | ags/utils/wallpaper/WallpaperStore.ts:329-334 | the analysis announced after a manual re-theme never says auto |
| ThemeRules.ManualAnalysisAgrees | ags/utils/wallpaper/WallpaperStore.ts:329-334 | its mode and scheme are those the parser defaults take under the same overrides; with scheme auto, neutral or rainbow it is a derived analysis |
| ThemeRules.WallpaperCommand | ags/utils/wallpaper/WallpaperStore.ts:380-391 | the command starts with the quoted tool path, "wallpaper" and the quoted image path, and is exactly that with both choices on auto |
| ThemeRules.ChromashSchemeRoundTrip | ags/utils/wallpaper/WallpaperStore.ts:387-389 | the scheme name passed to the colour tool identifies the scheme: neutral and rainbow lose their prefix, the others pass through |
| ThemeRules.DecodeSchemeRoundTrip | ags/utils/wallpaper/WallpaperStore.ts:319-324 | the --scheme flag, or its absence for auto, reads back as the scheme |
| ThemeRules.SplitModeRoundTrip | ags/utils/wallpaper/WallpaperStore.ts:315-317 | the --mode flag, or its absence for auto, splits off in front of the scheme flag and reads back as the mode |
| ThemeRules.SplitAutoMode | ags/utils/wallpaper/WallpaperStore.ts:315-317 | with mode auto no mode flag is read |
| ThemeRules.SplitLightMode | ags/utils/wallpaper/WallpaperStore.ts:315-317 | " --mode light" reads back as light |
| ThemeRules.SplitDarkMode | ags/utils/wallpaper/WallpaperStore.ts:315-317 | " --mode dark" reads back as dark |
| ThemeRules.DecodeFlagsRoundTrip | ags/utils/wallpaper/WallpaperStore.ts:315-324 | the flag part of the command reads back as the manual mode and scheme |
| ThemeRules.WallpaperCommandDeterminesOverrides | ags/utils/wallpaper/WallpaperStore.ts:380-391 | two commands for the same tool and image are equal only when their manual mode and scheme are equal |
| ThemeRules.ChromashPath | ags/utils/wallpaper/WallpaperStore.ts:20-31 | the tool's path under the home directory ends in the file name "chromash" |
| ThemeRules.NotifyCommandMentions | ags/utils/wallpaper/WallpaperStore.ts:548-561 | the notification names the image's file name and the announced mode and scheme |
| ThemeCache.OldestFirst | ags/utils/wallpaper/WallpaperStore.ts:538-540 | the entries sorted by timestamp, as a permutation of the cache; the entries of any one timestamp keep their insertion order |
| ThemeCache.KeysOf | ags/utils/wallpaper/WallpaperStore.ts:543-545 | the keys of the entries, position by position |
| ThemeCache.DeleteKeys | ags/utils/wallpaper/WallpaperStore.ts:543-545 | after deleting the keys in order, a key reads as absent exactly when it was deleted and as before otherwise; keys stay unique |
| ThemeCache.DeleteKeysStep | ags/utils/wallpaper/WallpaperStore.ts:543-545 | deleting the keys of one more entry is one more delete |
| ThemeCache.DeleteKeysSize | ags/utils/wallpaper/WallpaperStore.ts:542-545 | deleting distinct present keys shrinks the cache by one per key |
| ThemeCache.Cleanup | ags/utils/wallpaper/WallpaperStore.ts:534-546 | cleanup keeps the keys unique |
| ThemeCache.CleanupUnfold | ags/utils/wallpaper/WallpaperStore.ts:536-545 | over the limit, cleanup deletes the keys of the first size-maxSize entries of the oldest-first order |
| ThemeCache.CleanupNoop | ags/utils/wallpaper/WallpaperStore.ts:536 | at or under the limit, cleanup changes nothing |
| ThemeCache.Evicted | ags/utils/wallpaper/WallpaperStore.ts:542-544 | cleanup names exactly size-maxSize keys |
| ThemeCache.EvictedKeys | ags/utils/wallpaper/WallpaperStore.ts:538-544 | the evicted keys are distinct and all present |
| ThemeCache.EvictedAreOldest | ags/utils/wallpaper/WallpaperStore.ts:538-544 | every evicted entry is no younger than any entry that is kept |
| ThemeCache.EvictedAt | ags/utils/wallpaper/WallpaperStore.ts:538-544 | an evicted entry sits among the first n of the sorted order |
| ThemeCache.KeptAt | ags/utils/wallpaper/WallpaperStore.ts:538-544 | a kept entry sits after the first n of the sorted order |
| ThemeCache.CleanupEvictsOldest | ags/utils/wallpaper/WallpaperStore.ts:534-546 | over the limit, exactly maxSize entries remain, all unchanged from before, and none removed is younger than one kept |
| ThemeCache.Snapshot | ags/utils/wallpaper/WallpaperStore.ts:118-125 | the saved object holds one record per entry, in cache order, each with its analysis and timestamp |
| ThemeCache.FirstNull | ags/utils/wallpaper/WallpaperStore.ts:107-113 | the position of the first null record, before which there is none |
| ThemeCache.TruthyEntries | ags/utils/wallpaper/WallpaperStore.ts:107-111 | no more entries than stored records |
| ThemeCache.TruthyEntriesFrom | ags/utils/wallpaper/WallpaperStore.ts:107-111 | every entry read back comes from a stored object with a truthy timestamp under the same path |
| ThemeCache.TruthyPrefixStep | ags/utils/wallpaper/WallpaperStore.ts:107-111 | the entries before the first null are the first record's entry, when it is truthy, followed by those of the rest |
| ThemeCache.FreshAfterAppend | ags/utils/wallpaper/WallpaperStore.ts:107-111 | with unique stored paths, appending the first record's entry leaves the remaining paths absent |
| ThemeCache.ReloadAppends | ags/utils/wallpaper/WallpaperStore.ts:101-116 | loading into a cache lacking the stored paths appends the truthy records before the first null, in order, and fails exactly when there is a null |
| ThemeCache.ReloadAppendsStep | ags/utils/wallpaper/WallpaperStore.ts:107-111 | one record of the load loop, given what the rest of the loop does |
| ThemeCache.ReloadTruthyStep | ags/utils/wallpaper/WallpaperStore.ts:108-109 | a truthy record is set and the loop goes on |
| ThemeCache.ReloadSkipStep | ags/utils/wallpaper/WallpaperStore.ts:108 | any other record that is not null is skipped |
| ThemeCache.ReloadFilters | ags/utils/wallpaper/WallpaperStore.ts:101-116 | loading into the empty cache gives exactly the truthy records before the first null, and fails exactly when there is a null |
| ThemeCache.ReloadSnapshot | ags/utils/wallpaper/WallpaperStore.ts:101-131 | a saved cache whose timestamps are non-zero loads back as the same cache, without failure |
| ThemeCache.TruthyOfSnapshot | ags/utils/wallpaper/WallpaperStore.ts:107-125 | the truthy records of a saved cache are its entries |
| WallpaperIndex.Ls | ags/utils/wallpaper/WallpaperStore.ts:183-225 | the loop over a directory's children returns exactly the recursive listing: nothing for a missing or unreadable directory, hidden names skipped unless asked for, directories descended while levels remain, everything else listed with its path |
| WallpaperIndex.Advance | ags/utils/wallpaper/WallpaperStore.ts:200-219 | appending one child's contribution keeps the listing built so far a prefix of the whole |
| WallpaperIndex.ListingNext | ags/utils/wallpaper/WallpaperStore.ts:200-219 | the listing of the remaining children starts with the contribution of the next child |
| WallpaperIndex.ListingSkipsHidden | ags/utils/wallpaper/WallpaperStore.ts:204-206 | without includeHidden no listed entry, at any depth, has a name starting with "." |
| WallpaperIndex.VisitSkipsHidden | ags/utils/wallpaper/WallpaperStore.ts:204-218 | one child contributes no hidden name without includeHidden |
| WallpaperIndex.ListingUnder | ags/utils/wallpaper/WallpaperStore.ts:200-218 | every listed path lies under the directory scanned |
| WallpaperIndex.ListingFlat | ags/utils/wallpaper/WallpaperStore.ts:209-218 | at level 0 the listing is the visible children themselves, each under its parent's path |
| WallpaperIndex.ImagesOf | ags/utils/wallpaper/WallpaperStore.ts:146-153 | the kept files are files of the listing whose content type starts with "image/" |
| WallpaperIndex.ImagesOfComplete | ags/utils/wallpaper/WallpaperStore.ts:146-153 | no image of the listing is dropped |
| WallpaperIndex.ToItem | ags/utils/wallpaper/WallpaperStore.ts:155-165 | an item has the file's path and a non-empty name, "Unknown" when the file has none |
| WallpaperIndex.Wallpapers | ags/utils/wallpaper/WallpaperStore.ts:134-174 | a missing directory gives no items; otherwise one item per image of the two-level scan, in scan order |
| WallpaperIndex.DirListingUnder | ags/utils/wallpaper/WallpaperStore.ts:183-218 | an entry of a directory's listing lies under it and, without includeHidden, is not hidden |
| WallpaperIndex.WallpapersAreImages | ags/utils/wallpaper/WallpaperStore.ts:134-165 | every item lies under the wallpaper directory and, without includeHidden, has no hidden name |
| WallpaperIndex.ItemKeepsPath | ags/utils/wallpaper/WallpaperStore.ts:155-165 | an item keeps its file's path, and is hidden only when the file is |
| WallpaperIndex.ItemOf | ags/utils/wallpaper/WallpaperStore.ts:155-165 | every item is the item of one of the images |
| WallpaperIndex.Search | ags/utils/wallpaper/WallpaperStore.ts:244-251 | a blank query finds nothing; otherwise the ranked results cut to maxItems |
| WallpaperIndex.Candidates | ags/utils/wallpaper/WallpaperStore.ts:260-266 | the candidates are wallpapers: the others than the current one, or all when there is no other |
| WallpaperIndex.Others | ags/utils/wallpaper/WallpaperStore.ts:261-263 | exactly the wallpapers whose path differs from the current wallpaper |
| WallpaperIndex.RandomIndex | ags/utils/wallpaper/WallpaperStore.ts:267 | the floor of a number in [0, 1) times n is an index below n |
| WallpaperIndex.PickRandom | ags/utils/wallpaper/WallpaperStore.ts:265-268 | the pick is one of the wallpapers |
| WallpaperIndex.PickRandomAvoidsCurrent | ags/utils/wallpaper/WallpaperStore.ts:260-268 | when another wallpaper exists the pick is never the current one |
| WallpaperStore.Store.constructor | ags/utils/wallpaper/WallpaperStore.ts:71-91 | the store starts in the state reached by loading the persisted cache and then the wallpapers, with mode and scheme auto and 12 items |
| WallpaperStore.Store.Emit | ags/utils/wallpaper/WallpaperStore.ts:42-49 | a signal is appended to the event log and nothing else changes |
| WallpaperStore.Store.LoadThemeCache | ags/utils/wallpaper/WallpaperStore.ts:101-116 | the persisted object's truthy records are set into the cache in order; a null record, or an option that is null or undefined, ends the load with an error signal; a primitive option is `Some` of scalar records (none for a number or boolean, one per character for a string), all skipped; the cache invariant is kept |
| WallpaperStore.Store.LoadWallpapers | ags/utils/wallpaper/WallpaperStore.ts:134-181 | the wallpaper list becomes the scanned images and wallpapers-changed is emitted with them |
| WallpaperStore.Store.Refresh | ags/utils/wallpaper/WallpaperStore.ts:273-275 | a refresh is a reload of the wallpapers |
| WallpaperStore.Store.DirChanged | ags/utils/wallpaper/WallpaperStore.ts:94-99 | a change of the directory option reloads the wallpapers while the subscription is live |
| WallpaperStore.Store.Search | ags/utils/wallpaper/WallpaperStore.ts:244-251 | never more than maxItems results |
| WallpaperStore.Store.SendThemeNotification | ags/utils/wallpaper/WallpaperStore.ts:548-565 | with notify-send found, one notification command is spawned; without it nothing happens |
| WallpaperStore.Store.ApplyWallpaperWithChromash | ags/utils/wallpaper/WallpaperStore.ts:373-395 | succeeds exactly when the tool is executable and its command succeeds; then the command was run and the theme timer is armed for the path |
| WallpaperStore.Store.ScheduleThemeUpdate | ags/utils/wallpaper/WallpaperStore.ts:397-409 | any armed timer is replaced by one for the new path |
| WallpaperStore.Store.SetWallpaper | ags/utils/wallpaper/WallpaperStore.ts:344-371 | the state becomes the set-wallpaper transition: no path gives an error, the current path does nothing, a failure rolls the path back |
| WallpaperStore.Store.SetRandomWallpaper | ags/utils/wallpaper/WallpaperStore.ts:253-271 | the state becomes the random-wallpaper transition |
| WallpaperStore.Store.ApplyManualThemeSettings | ags/utils/wallpaper/WallpaperStore.ts:300-341 | the state becomes the manual re-theme transition |
| WallpaperStore.Store.SetManualMode | ags/utils/wallpaper/WallpaperStore.ts:278-287 | the state becomes the set-mode transition |
| WallpaperStore.Store.SetManualScheme | ags/utils/wallpaper/WallpaperStore.ts:289-298 | the state becomes the set-scheme transition |
| WallpaperStore.Store.CacheThemeAnalysis | ags/utils/wallpaper/WallpaperStore.ts:517-532 | the analysis is stored under the path with the timestamp, a cleanup is queued when over the limit, and a save is queued; the cache invariant is kept |
| WallpaperStore.Store.FireThemeTimer | ags/utils/wallpaper/WallpaperStore.ts:402-438 | the state becomes the timer transition; the cache invariant is kept |
| WallpaperStore.Store.ApplyThemeReport | ags/utils/wallpaper/WallpaperStore.ts:419-433 | the parsed automatic analysis is cached and the notification with the manual overrides is queued |
| WallpaperStore.Store.CleanupThemeCache | ags/utils/wallpaper/WallpaperStore.ts:534-546 | the cache becomes its cleanup and nothing else changes |
| WallpaperStore.Store.RunDeferred | ags/utils/wallpaper/WallpaperStore.ts:119-131 | the first queued callback runs: a cleanup, a save of the cache to the option, or a notification |
| WallpaperStore.Store.ClearThemeCache | ags/utils/wallpaper/WallpaperStore.ts:573-577 | the cache and the persisted object become empty |
| WallpaperStore.Store.Dispose | ags/utils/wallpaper/WallpaperStore.ts:579-597 | the timer is cancelled, the subscription dropped and the cache emptied |
| WallpaperStore.DeleteOldest | ags/utils/wallpaper/WallpaperStore.ts:538-545 | the deletion loop over the sorted entries leaves exactly the cleanup of the cache |
| WallpaperStore.CleanupKeepsEntries | ags/utils/wallpaper/WallpaperStore.ts:534-546 | cleanup keeps every timestamp non-zero |
| WallpaperStore.SetWallpaperSameIsNoop | ags/utils/wallpaper/WallpaperStore.ts:352-355 | choosing the current wallpaper changes nothing at all |
| WallpaperStore.SetWallpaperCommitsIffApplied | ags/utils/wallpaper/WallpaperStore.ts:357-395 | a new path is committed and wallpaper-set emitted exactly when the tool is executable and its command succeeds; otherwise the option stays, the shown path is rolled back, no analysis is armed and the error is the last signal; cache, list and queue are unchanged |
| WallpaperStore.DebounceLatestWins | ags/utils/wallpaper/WallpaperStore.ts:397-409 | of two wallpaper changes in a row only the later path's analysis stays armed |
| WallpaperStore.FireUnarmedIsNoop | ags/utils/wallpaper/WallpaperStore.ts:397-408 | a timer that is not armed does nothing |
| WallpaperStore.FireCachesAutomaticAnalysis | ags/utils/wallpaper/WallpaperStore.ts:402-433 | firing disarms the timer, caches the automatic analysis (not the overridden one) under the path, queues a save and then the notification with the overrides |
| WallpaperStore.DisposeStopsEverything | ags/utils/wallpaper/WallpaperStore.ts:579-597 | after disposal neither the timer nor a directory change does anything |
| WallpaperStore.SetRandomEmpty | ags/utils/wallpaper/WallpaperStore.ts:254-258 | with no wallpapers only the error is signalled |
| WallpaperStore.SetRandomChanges | ags/utils/wallpaper/WallpaperStore.ts:253-271 | when another wallpaper exists and the command succeeds, the current wallpaper changes to one of the list |
| WallpaperStore.CacheStepQueues | ags/utils/wallpaper/WallpaperStore.ts:517-532 | caching stores the analysis under its path, leaves other paths alone, keeps earlier queued work, queues a save last, and queues a cleanup exactly when over the limit |
| WallpaperStore.RunCleanupBounds | ags/utils/wallpaper/WallpaperStore.ts:534-546 | a queued cleanup leaves min(size, maxSize) entries, all from the old cache |
| WallpaperStore.SaveThenRestart | ags/utils/wallpaper/WallpaperStore.ts:101-131 | what a queued save writes, a new store loads back unchanged and without error |
| WallpaperStore.ManualSameIsNoop | ags/utils/wallpaper/WallpaperStore.ts:279-290 | selecting the mode or scheme already in force does nothing |
| WallpaperStore.SetManualModeApplies | ags/utils/wallpaper/WallpaperStore.ts:278-310 | a new mode is recorded and announced, and applied exactly when a wallpaper is set and the tool is executable |
| WallpaperStore.StepsKeepValid | ags/utils/wallpaper/WallpaperStore.ts:517-546 | every transition keeps the cache's paths unique and its timestamps non-zero |
| WallpaperStore.LoadCacheValid | ags/utils/wallpaper/WallpaperStore.ts:101-116 | loading keeps the cache invariant |
| WallpaperStore.SetWallpaperAsWrittenSkipsRollback | ags/utils/wallpaper/WallpaperStore.ts:357-370 | as written, a change to a new path rejects exactly when the tool is missing or its command fails, and then leaves the new path in the option and on the store, where the intended step has rolled both back; a change that succeeds agrees with the intended step |
| WallpaperStore.LoadCacheAsWrittenThrows | ags/utils/wallpaper/WallpaperStore.ts:101-116 | as written, the constructor throws exactly when the intended load signals its error, and otherwise loads the same cache |
| WallpaperStore.PutKeepsStamps | ags/utils/wallpaper/WallpaperStore.ts:526 | setting an entry with a non-zero timestamp keeps the cache invariant |
| WallpaperStore.ReloadKeepsStamps | ags/utils/wallpaper/WallpaperStore.ts:107-111 | only truthy timestamps are loaded |
| OrderedMap.Put | ags/utils/wallpaper/WallpaperStore.ts:526 | setting a present key keeps every key in its place; a new key is appended |
| OrderedMap.PutLaws | ags/utils/wallpaper/WallpaperStore.ts:526 | after setting, the key maps to the new value, every other key to what it did, and keys stay unique |
| OrderedMap.Delete | ags/utils/wallpaper/WallpaperStore.ts:544 | deleting shrinks the map by one exactly when the key is present |
| OrderedMap.DeleteLaws | ags/utils/wallpaper/WallpaperStore.ts:544 | on unique keys, deleting makes the key absent and changes no other key |
| Sorting.SortBy | ags/utils/wallpaper/WallpaperStore.ts:538-540 | the result is ordered by the comparator and is a permutation of the input; it is stable: for every key, the elements with that key appear in their input order |
| JsStrings.Trim | ags/utils/wallpaper/WallpaperStore.ts:447 | no white space is left at either end, and the result is the piece of the input between a prefix and a suffix made only of white space |
| JsStrings.Split | ags/utils/wallpaper/WallpaperStore.ts:447 | at least one piece, none holding the separator |
| JsStrings.JoinSplit | ags/utils/wallpaper/WallpaperStore.ts:447 | joining the pieces of a split with the separator gives the string back |
| JsStrings.ToLower | ags/utils/clipboard/index.ts:172-173 | same length, no upper-case ASCII letter left, and every other character unchanged |
| JsStrings.PadStart2 | ags/utils/timer.ts:177-179 | at least two characters: the string itself, preceded by as many "0" as it lacks |

## Findings

| source | as written | input that shows it | evidently intended | confidence | as-written member | corrected member |
|---|---|---|---|---|---|---|
| ags/utils/wallpaper/WallpaperStore.ts:366 | the catch of `setWallpaper` emits the undeclared `error` signal, which throws before the rollback at lines 368-369 | a new path while the colour tool is not executable: the option and `currentWallpaperPath` keep the new path and the promise rejects | the error is signalled and both are rolled back to the previous wallpaper | medium, not executed (rests on GJS throwing for an undeclared signal) | WallpaperStore.SetWallpaperAsWrittenSkipsRollback | WallpaperStore.SetWallpaperCommitsIffApplied |
| ags/utils/wallpaper/WallpaperStore.ts:114 | the catch of `loadThemeCache` emits the undeclared `error` signal, which throws out of the constructor | a persisted cache option that is null, or that holds a null record: no store is built | the error is signalled and the store starts with the records read so far | medium, not executed (rests on GJS throwing for an undeclared signal) | WallpaperStore.LoadCacheAsWrittenThrows | WallpaperStore.LoadCacheValid |

## Left out

- Processes and the operating system: `execAsync`, `GLib.spawn_*`, `hyprctl`, `cliphist`, `wl-copy`, `notify-send`, `paplay` and `magick` are not run. Their success or output is an input, and the command line is logged.
- File-system queries (`file_test`, content types, directory enumeration) are read from a tree value that the caller hands in.
- Fuzzy scoring (Fuse and AstalApps) is a foreign library. Only the blank-query rule and the `maxItems` cut are modelled; the ranking is an input.
- `Date.now()`, the hour of the day and `Math.random()` are parameters.
- `setInterval`, `setTimeout` and `timeout` become explicit steps. The dock button's 600 ms launching reset is one of them (`Dock.AppButton.ResetFires`).
- `WallpaperIndex.Ls`: builds each child's path as the directory's path, "/" and the child's name, where GIO's `get_path()` gives a canonical path. The configured wallpaper directory is taken to be canonical: with a trailing "/" or "."/".." segments the model's paths would differ from the source's ("//" in them, say).
- Async interleavings are not modelled. Each awaited command is taken to settle before the next operation.
- As in the source, there is no guard against a stale analysis result.
- Floating point: lengths, bar values and averages are exact reals or whole numbers. Rounding, NaN and infinity are not modelled, except where the source tests for them explicitly (`lengthStr`).
- `getVisualizerDimensions` (`ags/widgets/music/modules/cava/utils/visualization.ts:24-45`) is widget sizing arithmetic over floats and is not part of this model.
- The cava rendering, animation and widget files are GTK drawing and float easing, and are not part of this model.
- The thumbnail manager and `getThumbnail` are foreign image decoding and are not part of this model.
- GObject `@register`, `@property` and `@signal` plumbing becomes fields and an event log.
- The cheat sheet's `toggle`, `nextTab` and `prevTab` apply `!` and `+` to the accessor object rather than to its value. They are not modelled.
- `WidgetRegistry.ValidWidgetIds`: `isValidWidgetId` uses JavaScript's `in` on an object literal. For that reason, it also accepts inherited names such as "toString". The model reads it as membership among the table's own seven keys.
- `WidgetRegistry.GetWidgetById`: `getWidgetById` indexes the same object literal, so for an inherited name such as "toString" it returns the inherited function rather than undefined. The model looks up only the table's own seven keys, and gives nothing for any other name.
- Object key order: `Object.entries` lists integer-like keys first. Here keys are kept in insertion order, which agrees for the table and the cache paths the source uses.
- `WindowGrid.WellFormedLine`: proved only for values that hold no separator. With a separator in the value, the greedy key of the regular expression takes part of it.
- The window-grid card click and hover handlers (`ags/widgets/window-switcher/modules/WindowGrid.tsx:73-90`) are GTK event wiring and are not part of this model.
- `Timers.TimerService.AddTimer`: takes the stored duration `durationMinutes * 60` as its argument, in whole seconds. The timer widget passes `totalSeconds / 60` (`ags/widgets/sidebar/modules/TimerWidget.tsx:158-161`), so this is the number of seconds entered, 90 s included. A minutes value whose product with 60 is not whole is not represented; the widget never passes one, up to the float rounding of the division, which is not modelled.
- `Timers.AddLaws`: assumes the random id is fresh. The source draws it from `Math.random()` and does not check it.
- `Timers.TickLaws`: when the timer has been removed, the model drops its interval. The source clears the interval but leaves its stale handle in `intervals`. That handle never fires again.
- The clipboard's `initClipboardWatcher` and `dispose` start and stop the `wl-paste`/`cliphist` background process. They are not modelled, and neither is the `showImages` getter, which the manager itself never reads.
- `CavaState.ParticleState.UpdateParticles`: particles are values. The source's compaction moves object references, and the model does not capture that aliasing.
- `JsStrings.ToLower`: lower-cases ASCII letters only. JavaScript's `toLowerCase` also folds other Unicode letters.
- `Clipboard.Preview`: lengths count characters (Unicode scalar values), while JavaScript's `length` and `slice` count UTF-16 code units. Outside the Basic Multilingual Plane the source cuts earlier than the model and can split a surrogate pair at the cut. A line of 60 emoji, say, is 120 units long: the source shortens it, while the model keeps it whole.
- `WindowGrid.CardTitle`: counts characters rather than UTF-16 code units, as `Clipboard.Preview` does. A title of 13 emoji is 26 units long: the source cuts it to 22 units and "...", while the model keeps it whole.
- `WallpaperStore.Store.SetWallpaper`: follows the intended rollback and logs an `Error` event. As written, the `error` emit throws and skips the rollback (see "## Findings").
- The `error` signal at the other reachable emits (lines 256, 339, 348 and 405): the model logs an `Error` event. In the source the emit throws. Each throw comes after every state change the model makes, so only the event differs: the source rejects a promise or ends a timer callback instead.
- "Failed to load wallpapers" (line 171) and "Failed to save theme cache" (line 128) have no `Failure` case. The directory tree answers every content-type query, and writing an option cannot fail, so those catches cannot be reached in the model.
- `WallpaperStore.Store.LoadThemeCache`: follows the intended catch and logs an `Error` event. As written, that emit throws out of the constructor (see "## Findings"). A persisted record whose timestamp is truthy but not a number (a string, `true`) cannot be represented: the source loads it, while the model's records carry either a number or no timestamp.
- `ThemeCache.ReloadSkipStep`: a record with a truthy non-numeric timestamp is not representable, as for `LoadThemeCache`. Only records with a missing, zero or NaN timestamp reach the skip.
- `ThemeCache.Cleanup`: the cache-size option is a whole number here, while the source applies `Number(s)` to it. A fractional size removes ceil(size − max) entries (4 entries with 2.5 lose 2). A negative size removes every entry, and then `entries[size][0]` throws. NaN removes nothing. None of these is represented.
- `WindowGrid.LoadIconMappings`: the parsed JSON is taken to be an object mapping strings to strings. Other `JSON.parse` results are not represented. `null` makes `Object.entries` throw in `getIcon` (line 60). A number or boolean has no entries, so every icon is "apps". A string or an array maps its indices to its characters or elements. An object with non-string values returns those values as icons.
