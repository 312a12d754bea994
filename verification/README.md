# critwm core in Dafny

A model of the core of critwm, a tiling window manager for X11 written in
Rust. The model covers:

- the client and monitor records;
- the two layouts, `tile` and `float`;
- the key bindings and the global signal stack they push onto;
- the ICCCM "delete or kill" protocol for closing a client;
- the event dispatcher (`handle_event`) of the backend in `src/backend/mod.rs`;
- the signal controller (`handle_signal` and the operations it calls) in
  `src/backend/signal.rs`;
- the older, single-file backend `src/backend.rs`.

The X server is a value, `Xlib.Display`. It holds:

- the geometry of every window, which is what XGetGeometry reports;
- each window's WM_PROTOCOLS list;
- each window's _NET_WM_STATE value;
- whether the Xinerama library can be loaded, and the Xinerama screens;
- a log of every request the window manager has issued.

Move and resize requests also update the stored geometry, so round trips
through the server can be stated.

Every operation is a pure function from a backend value to a new one. An
operation fails with a `Result` error where the Rust code would panic: an
out-of-bounds index, or `len() - 1` in a place where that matters. It also
fails where Rust returns `Err`. Fixed-width integers are written out
(`MachineInt`):

- every `as` cast wraps;
- arithmetic overflow wraps, as in a release build;
- Rust's `/` on signed values rounds toward zero (`Half`).

The three revisions of the backend are separate modules: `Dispatcher`,
`SignalHandling` and `LegacyBackend`. They do not agree on field types. For
example, `current_client` is a `usize` in one and an `Option<usize>` in
another.

Modules, one per file, in dependency order:

- `machine.dfy`: `MachineInt`, `Errors`, `Seqs`
- `xlib.dfy`: `Xlib`
- `client.dfy`: `Clients`
- `monitor.dfy`: `Monitors`
- `layouts.dfy`: `Layouts`
- `signals.dfy`: `Signals`
- `protocols.dfy`: `Protocols`
- `dispatcher.dfy`: `Dispatcher`
- `signal_handling.dfy`: `SignalHandling`
- `legacy.dfy`: `LegacyBackend`

Quirks of the source that the model keeps as written:

- `set_current_workspace` accepts `WORKSPACE_COUNT` itself (`<=`, not `<`).
- `has_point` compares through `as u32` casts. A monitor with a negative
  origin therefore misses points it covers.
- `tile` and `float` ignore the full-screen and floating flags;
  `is_arrangeable` is never called.
- In mod.rs, destroying the last client computes `0 - 1` in usize.
- In backend.rs, destroying the first client leaves a stale focus index. No
  later code reads it before assigning it, so it never causes a panic.
- backend.rs repeats mod.rs's `set_focus` and its KeyPress, ButtonRelease
  and MappingNotify handlers. `LegacyBackend` states them again over its
  own backend record, which has different fields from `Dispatcher`'s.
- `focus_stack` never returns when no client is visible.

## Model

| member | source | states |
|---|---|---|
| MachineInt.I32RoundTrip | src/backend/mod.rs:534-540 | an i32 reinterpreted as u32 and back is the same i32 (the cached geometry passed to `move_resize_client` as u32) |
| MachineInt.U32RoundTrip | src/backend/client.rs:29-59 | a u32 read through `as i32` and back is the same u32, so a size read from XGetGeometry survives the client's i32 field |
| MachineInt.Half | src/backend/signal.rs:174-175 | Rust's `v / 2` on i32: the remainder has the sign of v and is at most 1 in size |
| Seqs.Position | src/backend/mod.rs:392-396 | `iter().position(p)`: the first index satisfying p, or None exactly when no element does |
| Xlib.GetGeometry | src/backend.rs:20-49 | XGetGeometry: the server's geometry for an existing window and zeroes (the initial values of the out-parameters) for an unknown one |
| Xlib.GetWindowAttributes | src/backend/mod.rs:202-208 | XGetWindowAttributes fills the position and size from the server when the window exists, the size read as i32, and leaves the previous attributes otherwise |
| Xlib.XError | src/backend/mod.rs:583-591 | the error handler returns 0 exactly for BadWindow and 1 for every other code |
| Xlib.XErrorDummy | src/backend/mod.rs:593-595 | the handler used around a forced kill ignores every error |
| Clients.NewGeometry | src/backend/client.rs:61-70 | a geometry with the given position, size and border and every hint zero |
| Clients.FetchGeometry | src/backend/client.rs:29-59 | the geometry of a known window is the server's, with sizes reinterpreted as i32; an unknown window gives all zeroes |
| Clients.NewClient | src/backend/client.rs:106-117 | a new client has its old geometry equal to its geometry, no window, and is neither full-screen nor floating |
| Clients.FetchClient | src/backend/client.rs:86-103 | a fetched client carries the window's current geometry (cached as the old geometry too) on the given monitor and workspace |
| Clients.UpdateGeometry | src/backend/client.rs:143-145 | the client's geometry becomes what the server now reports for its window; the cached old geometry and every other field stay |
| Clients.ToggleFullscreen | src/backend/client.rs:147-153 | the flag flips; entering full-screen caches the current geometry, leaving keeps the cache; nothing else changes |
| Clients.ToggleFullscreenTwice | src/backend/client.rs:147-153 | toggling twice restores the flag and every field but the cache, which holds the geometry from before when the first toggle entered full-screen |
| Monitors.NewMonitor | src/backend/monitor.rs:54-60 | a monitor built from a Xinerama screen starts on workspace 0 with the screen's origin and size and the given layout |
| Monitors.HasPoint | src/backend/monitor.rs:91-97 | a point it accepts lies at or past the u32-cast origin; when the far edges do not wrap in u32, it is exactly the closed rectangle of the cast origin and size |
| Monitors.HasPointInclusive | src/backend/monitor.rs:91-97 | for a monitor with non-negative origin and size, `has_point` is the closed rectangle [x, x + width] x [y, y + height] |
| Monitors.HasPointNegativeOrigin | src/backend/monitor.rs:91-97 | the u32 casts make a monitor at x = -100 of width 200 reject the point (0, 0), which it covers |
| Monitors.HasWindow | src/backend/monitor.rs:84-89 | for a window with non-negative geometry, the window is on the monitor exactly when the monitor holds the window's centre (x + width / 2, y + height / 2) |
| Monitors.HasWindowIsCentre | src/backend/monitor.rs:84-89 | for a window with non-negative geometry, `has_window` tests the point (x + width / 2, y + height / 2) |
| Monitors.SetCurrentWorkspace | src/backend/monitor.rs:103-113 | succeeds exactly when the workspace is at most WORKSPACES, changing only the workspace; otherwise an `Other` error and no change |
| Monitors.SetCurrentWorkspaceAcceptsCount | src/backend/monitor.rs:104 | WORKSPACE_COUNT itself is accepted although workspaces are 0 .. WORKSPACE_COUNT - 1; one more is rejected |
| Monitors.SetLayout | src/backend/monitor.rs:119-121 | the layout is replaced; workspace and geometry stay |
| Monitors.FromIter | src/backend/monitor.rs:160-170 | collecting monitors keeps each one, in order |
| Monitors.MonitorsFromScreens | src/backend/mod.rs:549-551 | one new monitor per Xinerama screen, in screen order |
| Monitors.MonitorOfWindow | src/backend/mod.rs:487-491 | the first monitor that holds the window's centre, or None exactly when no monitor does |
| Layouts.IsArrangeable | src/layouts/mod.rs:9-15 | an arrangeable client is on the monitor and workspace; among the clients there, the arrangeable ones are exactly those neither full-screen nor floating |
| Layouts.ArrangeableExcludesFullscreenAndFloating | src/layouts/mod.rs:9-15 | `is_arrangeable` rejects full-screen and floating clients and implies being on the monitor and workspace |
| Layouts.OnWorkspaceDoesNotImplyArrangeable | src/layouts/tile.rs:14 | the test the layouts apply accepts a full-screen client that `is_arrangeable` rejects |
| Layouts.Matches | src/layouts/tile.rs:12-17 | `stack_indices`: indices of clients on the monitor and workspace, each in range and matching |
| Layouts.MatchesAscending | src/layouts/tile.rs:13-16 | the collected indices are strictly ascending |
| Layouts.MatchesComplete | src/layouts/tile.rs:13-16 | every client on the monitor and workspace is among the collected indices |
| Layouts.MatchAtRank | src/layouts/tile.rs:42-48 | a matching client is the match whose rank is the number of matches before it |
| Layouts.RankOfMatch | src/layouts/tile.rs:42-48 | the k-th collected index has exactly k matches before it |
| Layouts.MatchesAgree | src/layouts/tile.rs:13-16 | two client lists that agree on which clients match give the same indices |
| Layouts.MatchesWithGeometries | src/layouts/tile.rs:13-16 | writing geometries back does not change which clients match or their ranks |
| Layouts.Tile | src/layouts/tile.rs:6-54 | one geometry per client; clients off the workspace keep theirs; border and hints are never changed |
| Layouts.TileAtMatch | src/layouts/tile.rs:30-48 | the k-th match out of n gets the place for rank k: the main window when it is last, stack slot k otherwise |
| Layouts.TileFromMatches | src/layouts/tile.rs:18-53 | a list that agrees with `tile` on every match and keeps the other geometries equals `tile`'s result |
| Layouts.TileNoMatch | src/layouts/tile.rs:23 | with no client on the workspace the geometries come back unchanged |
| Layouts.TileSingle | src/layouts/tile.rs:49-51 | a lone client gets the monitor's whole rectangle |
| Layouts.TilePlaceMain | src/layouts/tile.rs:31-38 | the main window sits at the monitor's origin, full height, half the width when there is a stack and all of it otherwise |
| Layouts.TilePlaceStack | src/layouts/tile.rs:36-47 | stack slot k is in the right half, at y + k * (h / (n - 1)), h / (n - 1) tall, and ends above the bottom edge |
| Layouts.StackOffset | src/layouts/tile.rs:45 | the slot offset `i as i32 * stack_height as i32` does not wrap for an i16 monitor height |
| Layouts.TileMain | src/layouts/tile.rs:30-38 | with at least two matches, the last one takes the left half at full height |
| Layouts.TileStack | src/layouts/tile.rs:36-48 | with n matches, the k-th earlier one takes slot k of the right column and stays inside the monitor |
| Layouts.TileIgnoresFlags | src/layouts/tile.rs:13-17 | setting the full-screen or floating flag on any client leaves `tile`'s output unchanged; a flagged client on the workspace, though not arrangeable, is placed at its rank like any other |
| Layouts.TileIdempotent | src/layouts/tile.rs:6-54 | tiling the output of tiling changes nothing |
| Layouts.CollectMatches | src/layouts/tile.rs:12-17 | the loop that collects `stack_indices` computes exactly the matches |
| Layouts.PlaceStack | src/layouts/tile.rs:36-48 | the stack loop gives every match but the last its place in `tile` and leaves the main window and the other clients alone |
| Layouts.TileArrange | src/layouts/tile.rs:6-54 | the imperative `tile` (collect, copy, place main, place stack) returns the layout `Tile` |
| Layouts.LastMatch | src/layouts/float.rs:11-16 | the last client on the workspace; None exactly when there is none |
| Layouts.LastMatchIsLastOfMatches | src/layouts/float.rs:11-16 | `float`'s last match is the last of `tile`'s collected indices |
| Layouts.Float | src/layouts/float.rs:6-30 | only the last client on the workspace changes, moving to the monitor's origin with its size kept |
| Layouts.FloatNoMatch | src/layouts/float.rs:22-27 | with no client on the workspace the geometries come back unchanged |
| Layouts.FloatIdempotent | src/layouts/float.rs:6-30 | floating the output of floating changes nothing |
| Layouts.FloatArrange | src/layouts/float.rs:6-30 | the imperative `float` (one pass for the last match, then one move) returns the layout `Float` |
| Layouts.Arrange | src/layouts/mod.rs:17 | either layout returns one geometry per client and keeps clients off the workspace as they are |
| Signals.Push | src/util.rs:105-109 | `signal` pushes a signal argument on top of the stack and leaves the stack alone for any other argument |
| Signals.Pop | src/backend/signal.rs:27 | popping takes the last signal and leaves the rest; an empty stack gives None and no change |
| Signals.PopAfterPush | src/util.rs:105-109 | a pop right after a push returns the pushed signal and the stack from before |
| Signals.TwoPushesPopReversed | src/backend/signal.rs:223-227 | the stack is last in, first out: two pushes pop in reverse order |
| Signals.NewKey | src/util.rs:55-59 | the key holds exactly the given modifier mask and keysym |
| Signals.KeyEquality | src/util.rs:49-53 | two keys are equal exactly when modifier and keysym are |
| Signals.Run | src/util.rs:72-74 | running an action applies its function: `signal` pushes, `spawn` asks for a program only with a string argument, `quit` exits |
| Signals.RunSignalThenPop | src/util.rs:99-113 | a key bound to `signal` hands its signal to the next pop |
| Protocols.SendXEventAtom | src/backend/mod.rs:558-581 | a WM_PROTOCOLS message carrying the atom is sent exactly when the window lists it; the result says whether it was |
| Protocols.ForceKillEffects | src/backend/mod.rs:131-139 | the forced kill grabs the server, ignores errors, kills the client, syncs, restores the handler and ungrabs |
| Protocols.KillWindow | src/backend/mod.rs:126-141 | the polite WM_DELETE_WINDOW message when it is listed, the forced kill otherwise; windows and protocols are unchanged |
| Protocols.KillIsTwoTier | src/backend/mod.rs:129-140 | the delete message is sent exactly when WM_DELETE_WINDOW is listed, and XKillClient is issued exactly when it is not |
| Dispatcher.ClientOf | src/backend/mod.rs:402-406 | the first client with the window, or None exactly when none has it |
| Dispatcher.SetFocus | src/backend/mod.rs:496-509 | moves the index when given one and focuses the client it names; an index out of range panics |
| Dispatcher.SetClientMonitor | src/backend/mod.rs:482-494 | re-reads the client's geometry and moves it to the first monitor holding its centre (keeping its monitor when none does); other clients are untouched |
| Dispatcher.Reposition | src/backend/mod.rs:456-480 | a move or resize request is issued, then the client's monitor is re-resolved; monitors and focus stay |
| Dispatcher.MoveClient | src/backend/mod.rs:470-473 | XMoveWindow followed by `set_client_monitor`; panics exactly when the index is out of range |
| Dispatcher.ResizeClient | src/backend/mod.rs:475-480 | XResizeWindow followed by `set_client_monitor`; panics exactly when the index is out of range |
| Dispatcher.MoveResizeClient | src/backend/mod.rs:456-468 | XMoveResizeWindow followed by `set_client_monitor`; panics exactly when the index is out of range |
| Dispatcher.EnterFullscreen | src/backend/mod.rs:513-527 | caches the geometry, sets the flag, sets _NET_WM_STATE_FULLSCREEN, moves and resizes to the current monitor and raises; panics exactly without a current monitor |
| Dispatcher.LeaveFullscreen | src/backend/mod.rs:528-541 | clears the flag and the state and moves and resizes the window back to the cached geometry |
| Dispatcher.ToggleFullscreenAt | src/backend/mod.rs:511-542 | enters or leaves by the flag, flips it, keeps the number of clients, and fails exactly on a missing client or monitor |
| Dispatcher.EnterThenLeaveRestores | src/backend/mod.rs:511-542 | entering and then leaving full-screen restores the window's position and size on the server |
| Dispatcher.FullscreenRoundTrip | src/backend/mod.rs:511-542 | two toggles restore the flag and the window's position and size |
| Dispatcher.FetchMonitors | src/backend/mod.rs:544-556 | when the Xinerama library loads and Xinerama is active, the monitors are rebuilt from its screens and nothing else changes; a library that does not load gives an `Open` error, and an inactive Xinerama an `Other` error |
| Dispatcher.SetClientMonitorsFrom | src/backend/mod.rs:339-341 | every client from the given index on has its monitor re-resolved; earlier ones are unchanged |
| Dispatcher.KillFocused | src/backend/mod.rs:126-141 | with the focus index in range the focused client is closed by the two-tier protocol; otherwise nothing happens |
| Dispatcher.OnKeyPress | src/backend/mod.rs:193-201 | a bound key runs its action on the signal stack; an unbound key changes nothing |
| Dispatcher.OnButtonPress | src/backend/mod.rs:202-212 | a press over a window records the press and the window's attributes and raises it; a press over no window is ignored |
| Dispatcher.Drag | src/backend/mod.rs:213-247 | button 1 moves the focused client by the pointer's offset, button 3 resizes it through `as u32`, other buttons do nothing; a missing client panics |
| Dispatcher.OtherMonitorWithPoint | src/backend/mod.rs:255-258 | the first monitor other than the current one holding the point, or None exactly when there is none |
| Dispatcher.SwitchMonitor | src/backend/mod.rs:248-275 | panics exactly when the current monitor index is out of range; nothing changes while the current monitor holds the point or no other does; otherwise the first other monitor holding it becomes current, and with no subwindow under the pointer the focus moves to the lowest-indexed client on that monitor with one SetInputFocus request, while a subwindow or a monitor without clients leaves the focus and the display alone |
| Dispatcher.SwitchMonitorChoice | src/backend/mod.rs:249-275 | the current monitor is kept while it holds the point, else replaced by the first other one that does; the clients are unchanged; after a switch with subwindow 0 the result is `set_focus` on the first client of the new monitor, and otherwise the focused index is unchanged |
| Dispatcher.OnMotion | src/backend/mod.rs:213-276 | a motion with no press in progress and not over the root window changes nothing |
| Dispatcher.OnButtonRelease | src/backend/mod.rs:277-280 | the cursor goes back to normal and the press is forgotten; nothing else changes |
| Dispatcher.StoredGeometryNotify | src/backend/mod.rs:289-304 | the synthetic ConfigureNotify carries the stored position, size and border |
| Dispatcher.OnConfigureRequest | src/backend/mod.rs:281-333 | a managed window is sent its stored geometry and not reconfigured; an unmanaged one is configured as it asked; exactly one request goes out |
| Dispatcher.OnConfigureNotify | src/backend/mod.rs:334-343 | a root ConfigureNotify rebuilds the monitors, failing exactly when the Xinerama library does not load or Xinerama is inactive, with `fetch_monitors`'s error, and re-resolves every client's monitor |
| Dispatcher.OnMappingNotify | src/backend/mod.rs:344-353 | keyboard and modifier changes refresh the mapping; keys and buttons are grabbed again in every case |
| Dispatcher.OnMapRequest | src/backend/mod.rs:354-381 | a map request succeeds exactly with a current monitor, adds one client and focuses it |
| Dispatcher.MapRequestManages | src/backend/mod.rs:354-381 | the new client is last, has the window, starts on the current workspace unflagged, is focused, and its window is moved to the monitor's origin |
| Dispatcher.OnUnmapNotify | src/backend/mod.rs:382-388 | unmapping the dragged window ends the drag as a release does; any other unmap changes nothing |
| Dispatcher.OnEnterNotify | src/backend/mod.rs:389-399 | entering a managed window focuses its first client; entering any other window changes nothing |
| Dispatcher.OnDestroyNotify | src/backend/mod.rs:400-417 | never fails; destroying an unmanaged window changes nothing |
| Dispatcher.DestroyNotifyRemoves | src/backend/mod.rs:400-408 | exactly the first client with the window is removed and the others keep their order |
| Dispatcher.DestroyNotifyRefocuses | src/backend/mod.rs:409-415 | the focus index is clamped to the shorter list and that client is focused |
| Dispatcher.DestroyOnlyClientWraps | src/backend/mod.rs:410-412 | removing the only client computes `0 - 1` as 2^64 - 1, leaves the index at 0 and focuses nothing |
| Dispatcher.OnClientMessage | src/backend/mod.rs:418-434 | a _NET_WM_STATE message naming full-screen in either property word toggles the first client with the window; anything else changes nothing |
| Dispatcher.ClientMessageIgnoresAction | src/backend/mod.rs:420-424 | the action word (add, remove, toggle) of a _NET_WM_STATE message makes no difference |
| Dispatcher.OnPropertyNotify | src/backend/mod.rs:435-446 | only _NET_WM_WINDOW_TYPE is looked at; it panics when the focus index is out of range; when the focused window's _NET_WM_STATE is full-screen the client's full-screen state is toggled, and otherwise nothing changes |
| Dispatcher.HandleEvent | src/backend/mod.rs:188-450 | a release ends any drag, a map request adds one client, a destroy removes at most one, input and configure events keep the clients, and other events are ignored |
| SignalHandling.VisibleWindows | src/backend/signal.rs:115-117 | the windows of the clients on the monitor's workspace, each from such a client and every such client's window included |
| SignalHandling.Quit | src/backend/signal.rs:50-65 | every client window is mapped, the focus returns to the pointer root, the root window is destroyed and the display closed, in that order |
| SignalHandling.KillFocused | src/backend/signal.rs:67-85 | a focused client in range is closed by the two-tier protocol; no focus or an index out of range does nothing |
| SignalHandling.KillFocusedIsTwoTier | src/backend/signal.rs:71-82 | the delete message is sent exactly when WM_DELETE_WINDOW is listed, and XKillClient is issued exactly when it is not |
| SignalHandling.ToggleFloating | src/backend/signal.rs:87-94 | the flag flips, the window is raised and the current workspace rearranged; a client or monitor out of range panics |
| SignalHandling.ToggleFloatingTwice | src/backend/signal.rs:87-94 | toggling twice leaves everything but the log as it was |
| SignalHandling.Unfloat | src/backend/signal.rs:99-103 | every client on the monitor stops floating; the others are unchanged |
| SignalHandling.ArrangeEvery | src/backend/signal.rs:105-107 | one arrange per workspace 0 .. WORKSPACE_COUNT - 1, in order |
| SignalHandling.ResetLayout | src/backend/signal.rs:96-108 | sets the named layout on the current monitor, unfloats its clients and rearranges every workspace; an index out of range panics |
| SignalHandling.ResetLayoutIdempotent | src/backend/signal.rs:96-108 | setting the same layout twice leaves clients and monitors as once |
| SignalHandling.ChangeWorkspace | src/backend/signal.rs:110-132 | the same workspace does nothing; another one unmaps the old workspace's windows, maps the new one's and switches, failing exactly past WORKSPACES |
| SignalHandling.ChangeWorkspaceSwapsVisible | src/backend/signal.rs:113-127 | a window is unmapped exactly when it was visible on the old workspace and mapped exactly when it is visible on the new one |
| SignalHandling.MoveToWorkspace | src/backend/signal.rs:134-150 | the focused client moves to the workspace, is unmapped, and both workspaces are rearranged; already there or no focus does nothing |
| SignalHandling.MoveToWorkspaceIdempotent | src/backend/signal.rs:138 | moving the focused client to the same workspace again changes nothing |
| SignalHandling.NextMonitor | src/backend/signal.rs:153-168 | the next monitor index stays in range, and with no monitors Down wraps to 2^64 - 1 |
| SignalHandling.NextMonitorWraps | src/backend/signal.rs:153-168 | Up is (current + 1) mod count and Down is (current - 1) mod count |
| SignalHandling.NextMonitorInverse | src/backend/signal.rs:153-168 | Up then Down, and Down then Up, return to the same monitor |
| SignalHandling.PointerTarget | src/backend/signal.rs:170-184 | the warp goes to the focused client's centre, or without focus to the monitor's centre in i16 arithmetic; an index out of range panics |
| SignalHandling.FocusMonitor | src/backend/signal.rs:152-185 | the current monitor becomes the next one and the focus becomes the one `focus_current_monitor` leaves; the pointer is warped from that focus, to the centre of the newly focused client when there is one; it fails exactly when the warp target does; nothing else changes |
| SignalHandling.FirstVisibleStep | src/backend/signal.rs:190-205 | the first step of the cyclic walk at or after j that meets a visible client, or none in the rest of one lap |
| SignalHandling.VisitCovers | src/backend/signal.rs:195-204 | one lap of the cyclic walk visits every client |
| SignalHandling.VisitOrder | src/backend/signal.rs:191-205 | Up visits current + 1, current + 2, ... mod n; Down visits current - 1, current - 2, ... mod n |
| SignalHandling.FocusStackTarget | src/backend/signal.rs:190-206 | a target exists exactly when some client is visible; it is visible and every earlier step of the walk was not |
| SignalHandling.FocusStack | src/backend/signal.rs:187-216 | focuses the first visible client along the walk and warps to its centre; no focus does nothing; a bad monitor index panics |
| SignalHandling.FocusStackDiverges | src/backend/signal.rs:190-205 | with clients but none visible every step of the infinite walk misses, so the search never ends |
| SignalHandling.Dispatch | src/backend/signal.rs:29-45 | reports true exactly for Quit, and never touches the signal stack |
| SignalHandling.HandleSignal | src/backend/signal.rs:26-48 | pops only the top signal; an empty stack does nothing; true exactly when the top was Quit |
| SignalHandling.PushedQuitIsHandled | src/backend/signal.rs:26-33 | after pushing Quit, the next `handle_signal` quits and leaves the stack as it was before the push |
| LegacyBackend.ClientOf | src/backend.rs:258-262 | the first client with the window, or None exactly when none has it |
| LegacyBackend.SetFocus | src/backend.rs:289-302 | moves the index when given one and focuses the client it names; an index out of range panics |
| LegacyBackend.OnKeyPress | src/backend.rs:158-166 | a bound key runs its action; an unbound key changes nothing |
| LegacyBackend.OnButtonPress | src/backend.rs:167-177 | a press over a window records it and the window's attributes and raises it; over no window it is ignored |
| LegacyBackend.OnMotion | src/backend.rs:178-206 | while a press is recorded, button 1 moves the pressed window by the pointer's offset, button 3 resizes it through `as u32`; otherwise nothing |
| LegacyBackend.OnButtonRelease | src/backend.rs:207-210 | the cursor goes back to normal and the press is forgotten |
| LegacyBackend.ReleaseEndsDrag | src/backend.rs:178-210 | after a release, motion does nothing |
| LegacyBackend.DragToStartRestoresPosition | src/backend.rs:167-192 | dragging with button 1 back to the press point puts the window back where it was |
| LegacyBackend.OnConfigureRequest | src/backend.rs:211-230 | every configure request is forwarded as asked, managed or not |
| LegacyBackend.OnMappingNotify | src/backend.rs:231-240 | keyboard and modifier changes refresh the mapping; keys and buttons are grabbed again in every case |
| LegacyBackend.OnMapRequest | src/backend.rs:241-253 | selects structure and enter events, maps the window, appends a client with its geometry and focuses it |
| LegacyBackend.OnEnterNotify | src/backend.rs:255-264 | entering a managed window focuses its first client; other windows change nothing |
| LegacyBackend.OnDestroyNotify | src/backend.rs:265-280 | the first client with the window is removed; a later position clamps the index and refocuses, position 0 does neither |
| LegacyBackend.DestroyNotifyRemoves | src/backend.rs:267-270 | exactly the first client with the window is removed and the others keep their order |
| LegacyBackend.DestroyFirstLeavesStaleFocus | src/backend.rs:271-276 | removing the first client while the last is focused leaves the index one past the end, while the focused client has moved down one place; only a `set_focus(None)` on that index would panic, and the source never makes one, since its only such call (line 275) follows the re-clamp at line 273 |
| LegacyBackend.HandleEvent | src/backend.rs:154-283 | a release ends the drag, a map request adds and focuses one client, a destroy removes at most one, and events it does not handle change nothing |

## Left out

- Start-up and the main loop (`Backend::new`, `grab_keys`, `grab_buttons`, `main.rs`, `lib.rs`, `build.rs`): they only open the display and register with it. Grabs appear as the effects `GrabKeys` and `GrabButtons`.
- The IPC socket, `api.rs` and the `critwm-state` binary: these serialise state to another process, outside the window-management core.
- `atom.rs`, `hints.rs` and `get_atom_prop` are not part of this model. The interned atoms are a record of values, and _NET_WM_STATE is read from the display's `wmState` map.
- The size hints and the `f32` aspect fields of `WindowGeometry`: nothing in the modelled code reads them. The hints are carried as one value, and no float is modelled.
- The mutex and `lazy_static` around `SIGNAL_STACK`: the stack is a value in the backend. Concurrency is not modelled.
- `spawn` and `quit` in `util.rs` start and end processes. `Signals.Run` returns the request instead.
- Keycode to keysym translation: key events carry the keysym.
- The `handle_signal` in `src/backend/mod.rs` (lines 144-186): it is an older copy that matches on a different signal enum than `signal.rs` defines. `SignalHandling` models the `signal.rs` version.
- `arrange`, `focus_current_monitor` and `set_focus`, as `signal.rs` calls them: their bodies belong to a revision not shown. They appear as the log effects `Arrange`, `FocusCurrentMonitor` and `Focus`. `set_focus` also sets the index. The focus `focus_current_monitor` leaves is not computed: it is the `focused` parameter of `FocusMonitor`, `Dispatch` and `HandleSignal`.
- SetWindowState and the other requests without geometry are only logged. Only move and resize requests change what the server reports.
- Motion compression (the `XCheckTypedEvent` loop): a `MotionNotify` event carries the last position of a run.
- The `Client::new(xlib, display, window, monitor, workspace)` call in `mod.rs`'s MapRequest does not match `client.rs`, where `new` is a test-only constructor. It is modelled as `Client::fetch`, which has that argument list.
- The `tile` stack loop stores `u32` values into `i32` fields and divides by `(len - 1) as u32`. Both are modelled as casts. The `as u32` cast of a count of 2^32 or more clients is not modelled.
- Overflow: arithmetic follows a release build, so it wraps. A debug build would panic instead, for example on the `0 - 1` of `DestroyOnlyClientWraps`.
- Dispatcher.LeaveFullscreen: `mod.rs` passes the i32 `old_geometry.width` and `.height` to the u32 parameters of `move_resize_client`, which does not type-check as written. The model reads them as `as u32` casts.
- Monitors.HasWindow: `monitor.rs` adds the i32 `geometry.width / 2` to a u32, which does not type-check as written. The model reads it as `(geometry.width / 2) as u32`, a wrapping u32 sum.
- SignalHandling.PointerTarget: `signal.rs` passes `monitor_geometry.x + width / 2` (an i16 sum) where `cursor_warp` takes i32. The model wraps it in i16 and then widens.
- SignalHandling.NextMonitorWraps: requires at most 2^64 monitors, because a `Vec`'s length is a usize.
- SignalHandling.VisitOrder: requires fewer than 2^64 clients, for the same reason.
- Dispatcher.DestroyNotifyRefocuses: requires at most 2^64 clients, for the same reason, and at least two clients (one is the case of `DestroyOnlyClientWraps`).
- SignalHandling.FocusStack: requires that the search terminates (`FocusStackTerminates`). When no client is visible the Rust iterator never returns; `FocusStackDiverges` states that case.
- SignalHandling.ChangeWorkspace: when `set_current_workspace` fails, the error drops the unmap and map requests already sent.
- LegacyBackend.OnDestroyNotify: `backend.rs` removes from the vector while iterating over it. The model reads that as remove, then break.
- Dispatcher.OnMotion: its own contract covers only the idle case. Its two halves are stated by `Drag`, `SwitchMonitor` and `SwitchMonitorChoice`.
- Dispatcher.OnDestroyNotify: its own contract covers only the unmanaged case. The rest is in `DestroyNotifyRemoves`, `DestroyNotifyRefocuses` and `DestroyOnlyClientWraps`.
