/** The event dispatcher of src/backend/mod.rs: one transition per X event
    over the backend state. The focused client is a plain index here
    (`current_client: usize`), and an index out of range is a panic. */
module Dispatcher {
  import opened MachineInt
  import opened Errors
  import opened Xlib
  import opened Clients
  import opened Monitors
  import opened Protocols
  import Signals
  import Seqs

  /** The event mask selected on a newly mapped window:
      StructureNotifyMask | EnterWindowMask | PropertyChangeMask. */
  const MAP_REQUEST_MASK: nat := 0x2_0000 + 0x10 + 0x40_0000

  datatype Backend = Backend(
    display: Display,
    root: Window,
    start: Press,          // the button press that began a drag; subwindow 0 when none
    attrs: Attributes,     // the dragged window's attributes at the press
    atoms: Atoms,
    keyMap: map<Signals.Key, Signals.Action>,
    signals: Signals.SignalStack,
    processRequests: seq<Signals.ProcessRequest>,
    clients: seq<Client>,
    currentClient: nat,
    monitors: seq<Monitor>,
    currentMonitor: nat,
    screenLayout: Layout)  // the layout `Monitor::from` gives a monitor built from a screen

  /** Issues one request on the backend's display. */
  function Log(b: Backend, e: Effect): (r: Backend)
    ensures r == b.(display := Issue(b.display, e))
  {
    b.(display := Issue(b.display, e))
  }

  /** The first client whose window is `w`. */
  function ClientOf(cs: seq<Client>, w: Window): (r: Option<nat>)
    ensures r.Some? ==> r.value < |cs| && cs[r.value].window == w
    ensures r.Some? ==> forall j :: 0 <= j < r.value ==> cs[j].window != w
    ensures r.None? <==> forall j :: 0 <= j < |cs| ==> cs[j].window != w
  {
    Seqs.Position(cs, (c: Client) => c.window == w)
  }

  // ------------------------------------------------------------ helpers

  /** `set_focus`: optionally moves the focus index, then gives the input
      focus to the client it names, which panics when there is none. */
  function SetFocus(b: Backend, index: Option<nat>): (r: Result<Backend>)
    ensures var target := if index.Some? then index.value else b.currentClient;
      && (r.Ok? <==> target < |b.clients|)
      && (r.Ok? ==> r.value == b.(currentClient := target, display := Issue(b.display, SetInputFocus(b.clients[target].window))))
      && (r.Err? ==> r.error == OutOfBounds)
  {
    var b1 := if index.Some? then b.(currentClient := index.value) else b;
    if b1.currentClient < |b1.clients| then Ok(Log(b1, SetInputFocus(b1.clients[b1.currentClient].window)))
    else Err(OutOfBounds)
  }

  /** `set_client_monitor`: re-reads the client's geometry and moves it to
      the first monitor holding the window's centre; with no such monitor
      the client keeps its monitor. Every caller has already indexed
      `clients[index]`. */
  function SetClientMonitor(b: Backend, index: nat): (r: Backend)
    requires index < |b.clients|
    ensures |r.clients| == |b.clients|
    ensures forall j :: 0 <= j < |b.clients| && j != index ==> r.clients[j] == b.clients[j]
    ensures var c := b.clients[index]; var g := FetchGeometry(b.display, c.window);
      && r.clients[index].geometry == g
      && r.clients[index].monitor == (if MonitorOfWindow(b.monitors, g).Some? then MonitorOfWindow(b.monitors, g).value else c.monitor)
      && r.clients[index] == c.(geometry := g, monitor := r.clients[index].monitor)
    ensures r == b.(clients := r.clients)
  {
    var c := UpdateGeometry(b.clients[index], b.display);
    var found := MonitorOfWindow(b.monitors, c.geometry);
    var c' := if found.Some? then c.(monitor := found.value) else c;
    b.(clients := b.clients[index := c'])
  }

  /** The request a move, resize or move-resize sends, then
      `set_client_monitor`. */
  function Reposition(b: Backend, index: nat, request: Effect): (r: Backend)
    requires index < |b.clients| && MovesOrResizes(request) && request.window == b.clients[index].window
    ensures r == SetClientMonitor(Log(b, request), index)
    ensures r.display == Issue(b.display, request)
    ensures r.monitors == b.monitors && r.currentMonitor == b.currentMonitor && r.currentClient == b.currentClient
  {
    SetClientMonitor(Log(b, request), index)
  }

  /** `move_client`. */
  function MoveClient(b: Backend, index: nat, x: I32, y: I32): (r: Result<Backend>)
    ensures r.Ok? <==> index < |b.clients|
    ensures r.Ok? ==> r.value == Reposition(b, index, MoveWindow(b.clients[index].window, x, y))
  {
    if index < |b.clients| then Ok(Reposition(b, index, MoveWindow(b.clients[index].window, x, y)))
    else Err(OutOfBounds)
  }

  /** `resize_client`. */
  function ResizeClient(b: Backend, index: nat, width: U32, height: U32): (r: Result<Backend>)
    ensures r.Ok? <==> index < |b.clients|
    ensures r.Ok? ==> r.value == Reposition(b, index, ResizeWindow(b.clients[index].window, width, height))
  {
    if index < |b.clients| then Ok(Reposition(b, index, ResizeWindow(b.clients[index].window, width, height)))
    else Err(OutOfBounds)
  }

  /** `move_resize_client`. */
  function MoveResizeClient(b: Backend, index: nat, x: I32, y: I32, width: U32, height: U32): (r: Result<Backend>)
    ensures r.Ok? <==> index < |b.clients|
    ensures r.Ok? ==> r.value == Reposition(b, index, MoveResizeWindow(b.clients[index].window, x, y, width, height))
  {
    if index < |b.clients| then Ok(Reposition(b, index, MoveResizeWindow(b.clients[index].window, x, y, width, height)))
    else Err(OutOfBounds)
  }

  /** Entering full-screen: the geometry is cached and the flag set,
      _NET_WM_STATE becomes the full-screen atom, the window is resized to
      the current monitor's rectangle and raised. Reading that rectangle
      panics when there is no current monitor. */
  function EnterFullscreen(b: Backend, index: nat): (r: Result<Backend>)
    requires index < |b.clients| && !b.clients[index].fullscreen
    ensures r.Ok? <==> b.currentMonitor < |b.monitors|
    ensures r.Err? ==> r.error == OutOfBounds
    ensures r.Ok? ==> var c := b.clients[index]; var mg := b.monitors[b.currentMonitor].geometry;
      && |r.value.clients| == |b.clients|
      && r.value.clients[index].fullscreen && r.value.clients[index].oldGeometry == c.geometry
      && r.value.clients[index].window == c.window
      && (forall j :: 0 <= j < |b.clients| && j != index ==> r.value.clients[j] == b.clients[j])
      && r.value.display == Issue(Issue(Issue(b.display, SetWindowState(c.window, b.atoms.netWmStateFullscreen)),
           MoveResizeWindow(c.window, mg.x, mg.y, AsU32(mg.width), AsU32(mg.height))), RaiseWindow(c.window))
  {
    var c := ToggleFullscreen(b.clients[index]);
    var b1 := Log(b.(clients := b.clients[index := c]), SetWindowState(c.window, b.atoms.netWmStateFullscreen));
    if b.currentMonitor >= |b.monitors| then Err(OutOfBounds)
    else
      var mg := b.monitors[b.currentMonitor].geometry;
      var b2 := Reposition(b1, index, MoveResizeWindow(c.window, mg.x, mg.y, AsU32(mg.width), AsU32(mg.height)));
      Ok(Log(b2, RaiseWindow(c.window)))
  }

  /** Leaving full-screen: the flag is cleared, _NET_WM_STATE set to 0 and
      the window moved and resized back to the cached geometry. */
  function LeaveFullscreen(b: Backend, index: nat): (r: Backend)
    requires index < |b.clients| && b.clients[index].fullscreen
    ensures var c := b.clients[index]; var cached := c.oldGeometry;
      && |r.clients| == |b.clients|
      && !r.clients[index].fullscreen && r.clients[index].oldGeometry == cached
      && r.clients[index].window == c.window
      && (forall j :: 0 <= j < |b.clients| && j != index ==> r.clients[j] == b.clients[j])
      && r.display == Issue(Issue(b.display, SetWindowState(c.window, 0)),
           MoveResizeWindow(c.window, cached.x, cached.y, AsU32(cached.width), AsU32(cached.height)))
  {
    var c := ToggleFullscreen(b.clients[index]);
    var cached := c.oldGeometry;
    var b1 := Log(b.(clients := b.clients[index := c]), SetWindowState(c.window, 0));
    Reposition(b1, index, MoveResizeWindow(c.window, cached.x, cached.y, AsU32(cached.width), AsU32(cached.height)))
  }

  /** `toggle_fullscreen`: enters full-screen when the client is not in it
      and leaves it when it is. */
  function ToggleFullscreenAt(b: Backend, index: nat): (r: Result<Backend>)
    ensures r.Ok? <==> index < |b.clients| && (b.clients[index].fullscreen || b.currentMonitor < |b.monitors|)
    ensures index < |b.clients| && b.clients[index].fullscreen ==> r == Ok(LeaveFullscreen(b, index))
    ensures index < |b.clients| && !b.clients[index].fullscreen ==> r == EnterFullscreen(b, index)
    ensures r.Ok? ==> |r.value.clients| == |b.clients|
    ensures r.Ok? ==> r.value.clients[index].fullscreen == !b.clients[index].fullscreen
    ensures r.Ok? ==> r.value.clients[index].oldGeometry == ToggleFullscreen(b.clients[index]).oldGeometry
  {
    if index >= |b.clients| then Err(OutOfBounds)
    else if b.clients[index].fullscreen then Ok(LeaveFullscreen(b, index))
    else EnterFullscreen(b, index)
  }

  /** `fetch_monitors`: one monitor per Xinerama screen; an `Open` error
      when the Xinerama library cannot be loaded, and an `Other` error when
      Xinerama is not active. */
  function FetchMonitors(b: Backend): (r: Result<Backend>)
    ensures r.Ok? <==> b.display.xineramaLoads && b.display.screens.Some?
    ensures !b.display.xineramaLoads ==> r.Err? && r.error.Open?
    ensures b.display.xineramaLoads && b.display.screens.None? ==> r.Err? && r.error.Other?
    ensures r.Ok? ==> r.value == b.(monitors := MonitorsFromScreens(b.screenLayout, b.display.screens.value))
  {
    if !b.display.xineramaLoads then Err(Open("libXinerama"))
    else match b.display.screens
    case None => Err(Other("Xinerama is not active."))
    case Some(screens) => Ok(b.(monitors := MonitorsFromScreens(b.screenLayout, screens)))
  }

  /** The loop `for i in from..len { set_client_monitor(i) }`. */
  function SetClientMonitorsFrom(b: Backend, from: nat): (r: Backend)
    requires from <= |b.clients|
    ensures r == b.(clients := r.clients) && |r.clients| == |b.clients|
    ensures forall j :: 0 <= j < from ==> r.clients[j] == b.clients[j]
    ensures forall j :: from <= j < |b.clients| ==> r.clients[j] == SetClientMonitor(b, j).clients[j]
    decreases |b.clients| - from
  {
    if from == |b.clients| then b
    else SetClientMonitorsFrom(SetClientMonitor(b, from), from + 1)
  }

  /** `kill_client`: the two-tier kill of the focused client, if any. */
  function KillFocused(b: Backend): (r: Backend)
    ensures b.currentClient >= |b.clients| ==> r == b
    ensures b.currentClient < |b.clients| ==> r == b.(display := KillWindow(b.display, b.atoms, b.clients[b.currentClient].window))
  {
    if b.currentClient < |b.clients| then b.(display := KillWindow(b.display, b.atoms, b.clients[b.currentClient].window))
    else b
  }

  // ------------------------------------------------------------- events

  /** KeyPress: runs the action bound to (state, keysym), if any. */
  function OnKeyPress(b: Backend, state: U32, keysym: nat): (r: Backend)
    ensures Signals.Key(state, keysym) !in b.keyMap ==> r == b
    ensures Signals.Key(state, keysym) in b.keyMap ==>
      var run := Signals.Run(b.keyMap[Signals.Key(state, keysym)], b.signals);
      r == b.(signals := run.0, processRequests := b.processRequests + (if run.1.NoProcessRequest? then [] else [run.1]))
  {
    var key := Signals.NewKey(state, keysym);
    if key in b.keyMap then
      var (stack, request) := Signals.Run(b.keyMap[key], b.signals);
      b.(signals := stack, processRequests := b.processRequests + (if request.NoProcessRequest? then [] else [request]))
    else b
  }

  /** ButtonPress over a window: record the press and the window's
      attributes, and raise it. A press over no window is ignored. */
  function OnButtonPress(b: Backend, press: Press): (r: Backend)
    ensures press.subwindow == NO_WINDOW ==> r == b
    ensures press.subwindow != NO_WINDOW ==>
      && r.start == press
      && r.attrs == GetWindowAttributes(b.display, press.subwindow, b.attrs)
      && r.display == Issue(b.display, RaiseWindow(press.subwindow))
      && r.clients == b.clients && r.currentClient == b.currentClient
  {
    if press.subwindow == NO_WINDOW then b
    else
      var b1 := b.(attrs := GetWindowAttributes(b.display, press.subwindow, b.attrs));
      Log(b1, RaiseWindow(press.subwindow)).(start := press)
  }

  /** The drag half of MotionNotify: with button 1 the focused client moves
      by the pointer's offset from the press, with button 3 it grows by it;
      the offsets are i32 differences and the sizes go through `as u32`.
      Any other button does nothing; a missing focused client panics. */
  function Drag(b: Backend, xRoot: I32, yRoot: I32): (r: Result<Backend>)
    ensures b.start.button != BUTTON1 && b.start.button != BUTTON3 ==> r == Ok(b)
    ensures b.start.button == BUTTON1 || b.start.button == BUTTON3 ==> (r.Ok? <==> b.currentClient < |b.clients|)
    ensures b.start.button == BUTTON1 && r.Ok? ==>
      var w := b.clients[b.currentClient].window;
      r.value.display.log == b.display.log + [DefineCursor(MoveCursor),
        MoveWindow(w, AsI32(b.attrs.x + AsI32(xRoot - b.start.xRoot)), AsI32(b.attrs.y + AsI32(yRoot - b.start.yRoot)))]
    ensures b.start.button == BUTTON3 && r.Ok? ==>
      var w := b.clients[b.currentClient].window;
      r.value.display.log == b.display.log + [DefineCursor(ResizeCursor),
        ResizeWindow(w, AsU32(AsI32(b.attrs.width + AsI32(xRoot - b.start.xRoot))), AsU32(AsI32(b.attrs.height + AsI32(yRoot - b.start.yRoot))))]
  {
    var dx := AsI32(xRoot - b.start.xRoot);
    var dy := AsI32(yRoot - b.start.yRoot);
    if b.start.button == BUTTON1 then
      MoveClient(Log(b, DefineCursor(MoveCursor)), b.currentClient, AsI32(b.attrs.x + dx), AsI32(b.attrs.y + dy))
    else if b.start.button == BUTTON3 then
      ResizeClient(Log(b, DefineCursor(ResizeCursor)), b.currentClient, AsU32(AsI32(b.attrs.width + dx)), AsU32(AsI32(b.attrs.height + dy)))
    else Ok(b)
  }

  /** The first monitor other than `current` that holds the point. */
  function OtherMonitorWithPoint(ms: seq<Monitor>, current: nat, x: U32, y: U32): (r: Option<nat>)
    ensures r.Some? ==> r.value < |ms| && r.value != current && HasPoint(ms[r.value], x, y)
    ensures r.Some? ==> forall j :: 0 <= j < r.value && j != current ==> !HasPoint(ms[j], x, y)
    ensures r.None? <==> forall j :: 0 <= j < |ms| && j != current ==> !HasPoint(ms[j], x, y)
  {
    var holds := (i: nat) => i < |ms| && i != current && HasPoint(ms[i], x, y);
    assert forall j :: 0 <= j < |ms| ==> (holds(j) <==> j != current && HasPoint(ms[j], x, y));
    Seqs.FirstIndexFrom(|ms|, holds, 0)
  }

  /** The monitor-switch half of MotionNotify over the root window: when
      the current monitor no longer holds the pointer, the first other
      monitor holding it becomes current, and when the pointer is over no
      client the first client on that monitor is focused. */
  function SwitchMonitor(b: Backend, subwindow: Window, xRoot: I32, yRoot: I32): (r: Result<Backend>)
    ensures r.Ok? <==> b.currentMonitor < |b.monitors|
    ensures r.Err? ==> r.error == OutOfBounds
    ensures r.Ok? ==> var x := AsU32(xRoot); var y := AsU32(yRoot);
      var other := OtherMonitorWithPoint(b.monitors, b.currentMonitor, x, y);
      if HasPoint(b.monitors[b.currentMonitor], x, y) || other.None? then r.value == b
      else
        var m := other.value;
        && r.value == b.(currentMonitor := m, currentClient := r.value.currentClient, display := r.value.display)
        && (subwindow == NO_WINDOW && (exists i :: 0 <= i < |b.clients| && b.clients[i].monitor == m) ==>
              var i := r.value.currentClient;
              && i < |b.clients| && b.clients[i].monitor == m
              && (forall j :: 0 <= j < i ==> b.clients[j].monitor != m)
              && r.value.display == Issue(b.display, SetInputFocus(b.clients[i].window)))
        && (subwindow != NO_WINDOW || (forall i :: 0 <= i < |b.clients| ==> b.clients[i].monitor != m) ==>
              r.value == b.(currentMonitor := m))
  {
    var x := AsU32(xRoot);
    var y := AsU32(yRoot);
    if b.currentMonitor >= |b.monitors| then Err(OutOfBounds)
    else if HasPoint(b.monitors[b.currentMonitor], x, y) then Ok(b)
    else
      match OtherMonitorWithPoint(b.monitors, b.currentMonitor, x, y)
      case None => Ok(b)
      case Some(m) =>
        var b1 := b.(currentMonitor := m);
        if subwindow != NO_WINDOW then Ok(b1)
        else
          match Seqs.Position(b1.clients, (c: Client) => c.monitor == m)
          case None => Ok(b1)
          case Some(i) => SetFocus(b1, Some(i))
  }

  /** The pointer's monitor after a root motion: kept while the current
      monitor holds the point, otherwise the first other monitor holding it,
      otherwise kept. After a switch with no subwindow under the pointer,
      the result is `set_focus` on the first client of the new monitor, and
      the focus stays put when that monitor has no client or a subwindow is
      under the pointer. */
  lemma SwitchMonitorChoice(b: Backend, subwindow: Window, xRoot: I32, yRoot: I32)
    requires b.currentMonitor < |b.monitors|
    ensures var r := SwitchMonitor(b, subwindow, xRoot, yRoot).value;
      var x := AsU32(xRoot); var y := AsU32(yRoot);
      var other := OtherMonitorWithPoint(b.monitors, b.currentMonitor, x, y);
      && (HasPoint(b.monitors[b.currentMonitor], x, y) ==> r == b)
      && (!HasPoint(b.monitors[b.currentMonitor], x, y) ==>
            r.currentMonitor == (if other.Some? then other.value else b.currentMonitor))
      && r.clients == b.clients
      && (!HasPoint(b.monitors[b.currentMonitor], x, y) && other.Some? ==>
            var m := other.value;
            var first := Seqs.Position(b.clients, (c: Client) => c.monitor == m);
            && (subwindow == NO_WINDOW && first.Some? ==>
                  SetFocus(b.(currentMonitor := m), first).Ok?
                  && r == SetFocus(b.(currentMonitor := m), first).value)
            && (subwindow == NO_WINDOW && first.None? ==> r.currentClient == b.currentClient)
            && (subwindow != NO_WINDOW ==> r.currentClient == b.currentClient))
  {
  }

  /** MotionNotify: the drag while a press is recorded, then the monitor
      switch when the motion is over the root window. */
  function OnMotion(b: Backend, window: Window, subwindow: Window, xRoot: I32, yRoot: I32): (r: Result<Backend>)
    ensures b.start.subwindow == NO_WINDOW && window != b.root ==> r == Ok(b)
  {
    var b1 :- if b.start.subwindow != NO_WINDOW then Drag(b, xRoot, yRoot) else Ok(b);
    if window == b.root then SwitchMonitor(b1, subwindow, xRoot, yRoot) else Ok(b1)
  }

  /** ButtonRelease: the drag ends. */
  function OnButtonRelease(b: Backend): (r: Backend)
    ensures r.start == b.start.(subwindow := NO_WINDOW)
    ensures r == b.(start := r.start, display := Issue(b.display, DefineCursor(NormalCursor)))
  {
    Log(b, DefineCursor(NormalCursor)).(start := b.start.(subwindow := NO_WINDOW))
  }

  /** The synthetic ConfigureNotify describing a managed window's stored
      geometry. */
  function StoredGeometryNotify(g: WindowGeometry): (v: ConfigureNotifyValues)
    ensures v.x == g.x && v.y == g.y && v.width == g.width && v.height == g.height && v.borderWidth == g.borderWidth
  {
    ConfigureNotifyValues(g.x, g.y, g.width, g.height, g.borderWidth)
  }

  /** ConfigureRequest, following section 4.1.5 of the ICCCM: a managed
      window is told the geometry the manager keeps for it and is not
      reconfigured; an unmanaged one gets exactly what it asked for. */
  function OnConfigureRequest(b: Backend, req: ConfigureRequestEvent): (r: Backend)
    ensures r == b.(display := r.display)
    ensures |r.display.log| == |b.display.log| + 1 && r.display.log[..|b.display.log|] == b.display.log
    ensures r.display.windows == b.display.windows
    ensures var sent := r.display.log[|b.display.log|];
      && (sent.ConfigureWindow? <==> ClientOf(b.clients, req.window).None?)
      && (sent.SendConfigureNotify? <==> ClientOf(b.clients, req.window).Some?)
    ensures ClientOf(b.clients, req.window).Some? ==>
      r.display.log[|b.display.log|] == SendConfigureNotify(req.window, StoredGeometryNotify(b.clients[ClientOf(b.clients, req.window).value].geometry))
    ensures ClientOf(b.clients, req.window).None? ==>
      r.display.log[|b.display.log|] == ConfigureWindow(req.window, AsU32(req.valueMask),
        WindowChanges(req.x, req.y, req.width, req.height, req.borderWidth, req.above, req.detail))
  {
    match ClientOf(b.clients, req.window)
    case Some(i) =>
      Log(b, SendConfigureNotify(req.window, StoredGeometryNotify(b.clients[i].geometry)))
    case None =>
      Log(b, ConfigureWindow(req.window, AsU32(req.valueMask),
        WindowChanges(req.x, req.y, req.width, req.height, req.borderWidth, req.above, req.detail)))
  }

  /** ConfigureNotify on the root window: the screens changed, so rebuild
      the monitors and re-resolve every client's monitor. */
  function OnConfigureNotify(b: Backend, window: Window): (r: Result<Backend>)
    ensures window != b.root ==> r == Ok(b)
    ensures window == b.root ==> (r.Ok? <==> b.display.xineramaLoads && b.display.screens.Some?)
    ensures window == b.root && r.Err? ==> r == FetchMonitors(b).PropagateFailure()
    ensures window == b.root && r.Ok? ==>
      var rebuilt := FetchMonitors(b).value;
      && r.value.monitors == MonitorsFromScreens(b.screenLayout, b.display.screens.value)
      && |r.value.clients| == |b.clients|
      && forall j :: 0 <= j < |b.clients| ==> r.value.clients[j] == SetClientMonitor(rebuilt, j).clients[j]
  {
    if window != b.root then Ok(b)
    else
      var b1 :- FetchMonitors(b);
      Ok(SetClientMonitorsFrom(b1, 0))
  }

  /** MappingNotify: refresh the keyboard mapping when it changed, then
      grab keys and buttons again. */
  function OnMappingNotify(b: Backend, mapping: MappingRequest): (r: Backend)
    ensures r == b.(display := r.display)
    ensures (mapping.MappingKeyboard? || mapping.MappingModifier?) ==>
      r.display == b.display.(log := b.display.log + [RefreshKeyboardMapping, GrabKeys, GrabButtons])
    ensures mapping.MappingPointer? ==> r.display == b.display.(log := b.display.log + [GrabKeys, GrabButtons])
  {
    var refresh := if mapping.MappingKeyboard? || mapping.MappingModifier? then [RefreshKeyboardMapping] else [];
    b.(display := IssueAll(b.display, refresh + [GrabKeys, GrabButtons]))
  }

  /** MapRequest: select events on the window, map it, manage it on the
      current monitor's current workspace, focus it and move it to that
      monitor's origin. */
  function OnMapRequest(b: Backend, window: Window): (r: Result<Backend>)
    ensures r.Ok? <==> b.currentMonitor < |b.monitors|
    ensures r.Ok? ==> |r.value.clients| == |b.clients| + 1 && r.value.currentClient == |b.clients|
  {
    var b1 := b.(display := IssueAll(b.display, [SelectInput(window, MAP_REQUEST_MASK), MapWindow(window)]));
    if b1.currentMonitor >= |b1.monitors| then Err(OutOfBounds)
    else
      var monitor := b1.monitors[b1.currentMonitor];
      var c := FetchClient(b1.display, window, b1.currentMonitor, monitor.currentWorkspace);
      var b2 := b1.(clients := b1.clients + [c]);
      var index := |b2.clients| - 1;
      var b3 := SetFocus(b2, Some(index)).value;
      MoveClient(b3, index, monitor.geometry.x, monitor.geometry.y)
  }

  /** UnmapNotify of the dragged window ends the drag. */
  function OnUnmapNotify(b: Backend, window: Window): (r: Backend)
    ensures window != b.start.subwindow ==> r == b
    ensures window == b.start.subwindow ==> r == OnButtonRelease(b)
  {
    if window == b.start.subwindow then Log(b, DefineCursor(NormalCursor)).(start := b.start.(subwindow := NO_WINDOW))
    else b
  }

  /** EnterNotify: focus the first client whose window the pointer entered. */
  function OnEnterNotify(b: Backend, window: Window): (r: Result<Backend>)
    ensures r.Ok?
    ensures ClientOf(b.clients, window).None? ==> r.value == b
    ensures ClientOf(b.clients, window).Some? ==>
      var i := ClientOf(b.clients, window).value;
      r.value == b.(currentClient := i, display := Issue(b.display, SetInputFocus(window)))
  {
    match ClientOf(b.clients, window)
    case None => Ok(b)
    case Some(i) => SetFocus(b, Some(i))
  }

  /** DestroyNotify: forget the first client with that window, clamp the
      focus index to the shorter list and refocus. The clamp computes
      `len - 1` in usize, which wraps when the list has become empty. */
  function OnDestroyNotify(b: Backend, window: Window): (r: Result<Backend>)
    ensures r.Ok?
    ensures ClientOf(b.clients, window).None? ==> r.value == b
  {
    match ClientOf(b.clients, window)
    case None => Ok(b)
    case Some(i) =>
      var remaining := b.clients[..i] + b.clients[i + 1..];
      var clamped := if AsUsize(|remaining| - 1) < i then AsUsize(|remaining| - 1) else i;
      var b1 := b.(clients := remaining, currentClient := if clamped > 0 then clamped else 0);
      if |remaining| > 0 then SetFocus(b1, None) else Ok(b1)
  }

  /** The _NET_WM_STATE test of ClientMessage: the full-screen atom in the
      second or third data word; the action word is not looked at. */
  predicate AsksFullscreen(atoms: Atoms, messageType: Atom, first: int, second: int)
  {
    messageType == atoms.netWmState
    && (first == AsI64(atoms.netWmStateFullscreen) || second == AsI64(atoms.netWmStateFullscreen))
  }

  /** ClientMessage: a _NET_WM_STATE request naming full-screen toggles the
      first client with that window. */
  function OnClientMessage(b: Backend, window: Window, messageType: Atom, first: int, second: int): (r: Result<Backend>)
    ensures !AsksFullscreen(b.atoms, messageType, first, second) || ClientOf(b.clients, window).None? ==> r == Ok(b)
    ensures AsksFullscreen(b.atoms, messageType, first, second) && ClientOf(b.clients, window).Some? ==>
      r == ToggleFullscreenAt(b, ClientOf(b.clients, window).value)
  {
    if AsksFullscreen(b.atoms, messageType, first, second) then
      match ClientOf(b.clients, window)
      case None => Ok(b)
      case Some(i) => ToggleFullscreenAt(b, i)
    else Ok(b)
  }

  /** PropertyNotify of _NET_WM_WINDOW_TYPE: when the focused client's
      _NET_WM_STATE is full-screen, toggle it. */
  function OnPropertyNotify(b: Backend, atom: Atom): (r: Result<Backend>)
    ensures atom != b.atoms.netWmWindowType ==> r == Ok(b)
    ensures atom == b.atoms.netWmWindowType && b.currentClient >= |b.clients| ==> r == Err(OutOfBounds)
    ensures atom == b.atoms.netWmWindowType && b.currentClient < |b.clients| ==>
      var w := b.clients[b.currentClient].window;
      var fullscreenState := w in b.display.wmState && b.display.wmState[w] == b.atoms.netWmStateFullscreen;
      && (fullscreenState ==> r == ToggleFullscreenAt(b, b.currentClient))
      && (fullscreenState && r.Ok? ==> r.value.clients[b.currentClient].fullscreen == !b.clients[b.currentClient].fullscreen)
      && (!fullscreenState ==> r == Ok(b))
  {
    if atom != b.atoms.netWmWindowType then Ok(b)
    else if b.currentClient >= |b.clients| then Err(OutOfBounds)
    else
      var w := b.clients[b.currentClient].window;
      if w in b.display.wmState && b.display.wmState[w] == b.atoms.netWmStateFullscreen then
        ToggleFullscreenAt(b, b.currentClient)
      else Ok(b)
  }

  /** `handle_event`: one event, one transition; a panic or an error from
      `fetch_monitors` ends in `Err`. */
  function HandleEvent(b: Backend, e: XEvent): (r: Result<Backend>)
    ensures e.OtherEvent? ==> r == Ok(b)
    ensures e.ButtonRelease? ==> r.Ok? && r.value.start.subwindow == NO_WINDOW
    ensures e.KeyPress? || e.ButtonPress? || e.ConfigureRequest? || e.MappingNotify? || e.UnmapNotify? ==>
      r.Ok? && r.value.clients == b.clients
    ensures e.MapRequest? ==> (r.Ok? <==> b.currentMonitor < |b.monitors|)
    ensures e.MapRequest? && r.Ok? ==> |r.value.clients| == |b.clients| + 1 && r.value.currentClient == |b.clients|
    ensures e.EnterNotify? ==> r.Ok? && r.value.clients == b.clients
    ensures e.DestroyNotify? ==> r.Ok? && |r.value.clients| == |b.clients| - (if ClientOf(b.clients, e.window).Some? then 1 else 0)
  {
    match e
    case KeyPress(state, keysym) => Ok(OnKeyPress(b, state, keysym))
    case ButtonPress(press) => Ok(OnButtonPress(b, press))
    case MotionNotify(window, subwindow, xRoot, yRoot) => OnMotion(b, window, subwindow, xRoot, yRoot)
    case ButtonRelease => Ok(OnButtonRelease(b))
    case ConfigureRequest(req) => Ok(OnConfigureRequest(b, req))
    case ConfigureNotify(window) => OnConfigureNotify(b, window)
    case MappingNotify(mapping) => Ok(OnMappingNotify(b, mapping))
    case MapRequest(window) => OnMapRequest(b, window)
    case UnmapNotify(window) => Ok(OnUnmapNotify(b, window))
    case EnterNotify(window) => OnEnterNotify(b, window)
    case DestroyNotify(window) => OnDestroyNotify(b, window)
    case ClientMessage(window, messageType, _, first, second) => OnClientMessage(b, window, messageType, first, second)
    case PropertyNotify(atom) => OnPropertyNotify(b, atom)
    case OtherEvent => Ok(b)
  }

  // ------------------------------------------------------------ properties

  /** MapRequest manages exactly one new client, last in the list: it has
      the requested window, starts on the current monitor's workspace
      neither full-screen nor floating, is focused, and ends on the first
      monitor holding its centre (the current one when none does). When the
      window exists it is moved to the current monitor's origin. */
  lemma MapRequestManages(b: Backend, window: Window)
    requires b.currentMonitor < |b.monitors|
    ensures var r := OnMapRequest(b, window).value; var n := |b.clients|; var c := r.clients[n];
      var mon := b.monitors[b.currentMonitor];
      && |r.clients| == n + 1 && r.clients[..n] == b.clients
      && r.currentClient == n && r.monitors == b.monitors && r.currentMonitor == b.currentMonitor
      && c.window == window && c.workspace == mon.currentWorkspace
      && !c.fullscreen && !c.floating
      && c.geometry == FetchGeometry(r.display, window)
      && c.monitor == (if MonitorOfWindow(b.monitors, c.geometry).Some? then MonitorOfWindow(b.monitors, c.geometry).value else b.currentMonitor)
      && (window in b.display.windows ==> r.display.windows[window].x == mon.geometry.x && r.display.windows[window].y == mon.geometry.y)
  {
    var r := OnMapRequest(b, window).value;
    var n := |b.clients|;
    assert r.clients[..n] == b.clients;
  }

  /** DestroyNotify for a managed window removes exactly its first entry
      and keeps the others in order. */
  lemma DestroyNotifyRemoves(b: Backend, window: Window)
    requires ClientOf(b.clients, window).Some?
    ensures var i := ClientOf(b.clients, window).value; var r := OnDestroyNotify(b, window).value;
      && |r.clients| == |b.clients| - 1
      && (forall j :: 0 <= j < i ==> r.clients[j] == b.clients[j])
      && (forall j :: i <= j < |r.clients| ==> r.clients[j] == b.clients[j + 1])
      && r.monitors == b.monitors && r.currentMonitor == b.currentMonitor
  {
  }

  /** After a destroy the focus index is clamped to the shorter list, and
      the client it names is focused. (A vector's length is a usize.) */
  lemma DestroyNotifyRefocuses(b: Backend, window: Window)
    requires ClientOf(b.clients, window).Some? && 2 <= |b.clients| <= TWO_64
    ensures var i := ClientOf(b.clients, window).value; var r := OnDestroyNotify(b, window).value;
      && r.currentClient == (if i < |r.clients| then i else |r.clients| - 1)
      && r.currentClient < |r.clients|
      && r.display == Issue(b.display, SetInputFocus(r.clients[r.currentClient].window))
  {
    var i := ClientOf(b.clients, window).value;
    var remaining := b.clients[..i] + b.clients[i + 1..];
    assert |remaining| == |b.clients| - 1;
    assert AsUsize(|remaining| - 1) == |remaining| - 1;
  }

  /** Destroying the only client computes `0 - 1` in usize: the clamp sees
      2^64 - 1, keeps the index 0 and nothing is focused. A debug build
      would panic on that subtraction instead. */
  lemma DestroyOnlyClientWraps(b: Backend)
    requires |b.clients| == 1
    ensures var r := OnDestroyNotify(b, b.clients[0].window).value;
      && AsUsize(|r.clients| - 1) == TWO_64 - 1
      && r.clients == [] && r.currentClient == 0 && r.display == b.display
  {
  }

  /** Leaving full-screen after entering it puts the window back where it
      was and at the size it had, when the stored geometry was the server's
      (the cached i32 sizes survive the trip back through `as u32`). */
  lemma EnterThenLeaveRestores(b: Backend, index: nat)
    requires index < |b.clients| && b.currentMonitor < |b.monitors|
    requires !b.clients[index].fullscreen
    requires b.clients[index].window in b.display.windows
    requires b.clients[index].geometry == FetchGeometry(b.display, b.clients[index].window)
    ensures EnterFullscreen(b, index).Ok?
    ensures var b1 := EnterFullscreen(b, index).value;
      b1.clients[index].fullscreen &&
      var b2 := LeaveFullscreen(b1, index); var w := b.clients[index].window;
      && !b2.clients[index].fullscreen
      && w in b2.display.windows
      && b2.display.windows[w].x == b.display.windows[w].x
      && b2.display.windows[w].y == b.display.windows[w].y
      && b2.display.windows[w].width == b.display.windows[w].width
      && b2.display.windows[w].height == b.display.windows[w].height
  {
    var w := b.clients[index].window;
    var s := b.display.windows[w];
    U32RoundTrip(s.width);
    U32RoundTrip(s.height);
    var b1 := EnterFullscreen(b, index).value;
    var cached := b1.clients[index].oldGeometry;
    assert cached == b.clients[index].geometry;
    assert b1.clients[index].window == w;
    assert w in b1.display.windows;
    var b2 := LeaveFullscreen(b1, index);
    var d1 := Issue(b1.display, SetWindowState(w, 0));
    var request := MoveResizeWindow(w, cached.x, cached.y, AsU32(cached.width), AsU32(cached.height));
    assert b2.display == Issue(d1, request);
    assert b2.display.windows[w] == Apply(d1.windows[w], request);
  }

  /** The full-screen round trip: toggling twice restores the flag and the
      window's position and size. */
  lemma FullscreenRoundTrip(b: Backend, index: nat)
    requires index < |b.clients| && b.currentMonitor < |b.monitors|
    requires !b.clients[index].fullscreen
    requires b.clients[index].window in b.display.windows
    requires b.clients[index].geometry == FetchGeometry(b.display, b.clients[index].window)
    ensures ToggleFullscreenAt(b, index).Ok?
    ensures var b1 := ToggleFullscreenAt(b, index).value;
      ToggleFullscreenAt(b1, index).Ok? &&
      var b2 := ToggleFullscreenAt(b1, index).value; var w := b.clients[index].window;
      && !b2.clients[index].fullscreen
      && w in b2.display.windows
      && b2.display.windows[w].x == b.display.windows[w].x
      && b2.display.windows[w].y == b.display.windows[w].y
      && b2.display.windows[w].width == b.display.windows[w].width
      && b2.display.windows[w].height == b.display.windows[w].height
  {
    EnterThenLeaveRestores(b, index);
    var b1 := EnterFullscreen(b, index).value;
    assert ToggleFullscreenAt(b, index) == Ok(b1);
    assert ToggleFullscreenAt(b1, index) == Ok(LeaveFullscreen(b1, index));
  }

  /** The action word of a _NET_WM_STATE message makes no difference: add,
      remove and toggle all toggle. */
  lemma ClientMessageIgnoresAction(b: Backend, window: Window, messageType: Atom, a1: int, a2: int, first: int, second: int)
    ensures HandleEvent(b, ClientMessage(window, messageType, a1, first, second))
         == HandleEvent(b, ClientMessage(window, messageType, a2, first, second))
  {
  }
}
