/** The earlier event loop of src/backend.rs: one flat list of clients, each
    a window and the geometry the server reported when it was mapped, a
    focus index, and click-and-drag moving and resizing of the window under
    the pointer. There are no monitors and no workspaces. */
module LegacyBackend {
  import opened MachineInt
  import opened Errors
  import opened Xlib
  import Signals
  import Seqs

  /** The events selected on a managed window: StructureNotify and EnterWindow. */
  const MAP_REQUEST_MASK: nat := 0x2_0000 + 0x10

  /** A managed window and the geometry XGetGeometry gave for it. */
  datatype Client = Client(geometry: ServerGeometry, window: Window)

  datatype Backend = Backend(
    display: Display,
    start: Press,
    attrs: Attributes,
    keyMap: map<Signals.Key, Signals.Action>,
    signals: Signals.SignalStack,
    processRequests: seq<Signals.ProcessRequest>,
    clients: seq<Client>,
    currentClient: nat)

  function Log(b: Backend, e: Effect): Backend
  {
    b.(display := Issue(b.display, e))
  }

  /** The first client with the given window. */
  function ClientOf(cs: seq<Client>, window: Window): (r: Option<nat>)
    ensures r.Some? ==> r.value < |cs| && cs[r.value].window == window
    ensures r.Some? ==> forall j :: 0 <= j < r.value ==> cs[j].window != window
    ensures r.None? <==> forall j :: 0 <= j < |cs| ==> cs[j].window != window
  {
    Seqs.Position(cs, (c: Client) => c.window == window)
  }

  /** `set_focus`: optionally moves the focus index, then gives the input
      focus to the client it names, which panics when there is none. */
  function SetFocus(b: Backend, index: Option<nat>): (r: Result<Backend>)
    ensures var target := if index.Some? then index.value else b.currentClient;
      && (r.Ok? <==> target < |b.clients|)
      && (r.Ok? ==> r.value == b.(currentClient := target, display := Issue(b.display, SetInputFocus(b.clients[target].window))))
      && (r.Err? ==> r.error == OutOfBounds)
  {
    var b1 := if index.Some? then b.(currentClient := index.value) else b;
    if b1.currentClient < |b1.clients| then Ok(Log(b1, SetInputFocus(b1.clients[b1.currentClient].window)))
    else Err(OutOfBounds)
  }

  /** KeyPress: run the action bound to the key, if any. */
  function OnKeyPress(b: Backend, state: U32, keysym: nat): (r: Backend)
    ensures Signals.Key(state, keysym) !in b.keyMap ==> r == b
    ensures Signals.Key(state, keysym) in b.keyMap ==>
      var run := Signals.Run(b.keyMap[Signals.Key(state, keysym)], b.signals);
      r == b.(signals := run.0, processRequests := b.processRequests + (if run.1.NoProcessRequest? then [] else [run.1]))
  {
    var key := Signals.NewKey(state, keysym);
    if key in b.keyMap then
      var (stack, request) := Signals.Run(b.keyMap[key], b.signals);
      b.(signals := stack, processRequests := b.processRequests + (if request.NoProcessRequest? then [] else [request]))
    else b
  }

  /** ButtonPress over a window: read its attributes, raise it and record
      the press. A press over no window is ignored. */
  function OnButtonPress(b: Backend, press: Press): (r: Backend)
    ensures press.subwindow == NO_WINDOW ==> r == b
    ensures press.subwindow != NO_WINDOW ==>
      r == b.(start := press, attrs := GetWindowAttributes(b.display, press.subwindow, b.attrs),
              display := Issue(b.display, RaiseWindow(press.subwindow)))
  {
    if press.subwindow == NO_WINDOW then b
    else
      var attrs := GetWindowAttributes(b.display, press.subwindow, b.attrs);
      Log(b, RaiseWindow(press.subwindow)).(attrs := attrs, start := press)
  }

  /** MotionNotify while a press is recorded: with button 1 the pressed
      window moves by the pointer's offset from the press, with button 3 it
      grows by it (i32 arithmetic, sizes through `as u32`). Without a
      recorded press, or with another button, nothing happens. */
  function OnMotion(b: Backend, xRoot: I32, yRoot: I32): (r: Backend)
    ensures b.start.subwindow == NO_WINDOW ==> r == b
    ensures b.start.button != BUTTON1 && b.start.button != BUTTON3 ==> r == b
    ensures r == b.(display := r.display)
    ensures b.start.subwindow != NO_WINDOW && b.start.button == BUTTON1 ==>
      r.display == Issue(Issue(b.display, DefineCursor(MoveCursor)),
        MoveWindow(b.start.subwindow, AsI32(b.attrs.x + AsI32(xRoot - b.start.xRoot)), AsI32(b.attrs.y + AsI32(yRoot - b.start.yRoot))))
    ensures b.start.subwindow != NO_WINDOW && b.start.button == BUTTON3 ==>
      r.display == Issue(Issue(b.display, DefineCursor(ResizeCursor)),
        ResizeWindow(b.start.subwindow, AsU32(AsI32(b.attrs.width + AsI32(xRoot - b.start.xRoot))),
                     AsU32(AsI32(b.attrs.height + AsI32(yRoot - b.start.yRoot)))))
  {
    if b.start.subwindow == NO_WINDOW then b
    else
      var dx := AsI32(xRoot - b.start.xRoot);
      var dy := AsI32(yRoot - b.start.yRoot);
      if b.start.button == BUTTON1 then
        Log(Log(b, DefineCursor(MoveCursor)), MoveWindow(b.start.subwindow, AsI32(b.attrs.x + dx), AsI32(b.attrs.y + dy)))
      else if b.start.button == BUTTON3 then
        Log(Log(b, DefineCursor(ResizeCursor)),
          ResizeWindow(b.start.subwindow, AsU32(AsI32(b.attrs.width + dx)), AsU32(AsI32(b.attrs.height + dy))))
      else b
  }

  /** ButtonRelease: the normal cursor comes back and the press is forgotten. */
  function OnButtonRelease(b: Backend): (r: Backend)
    ensures r.start == b.start.(subwindow := NO_WINDOW)
    ensures r == b.(start := r.start, display := Issue(b.display, DefineCursor(NormalCursor)))
  {
    Log(b, DefineCursor(NormalCursor)).(start := b.start.(subwindow := NO_WINDOW))
  }

  /** A release ends the drag: motion afterwards changes nothing until the
      next press. */
  lemma ReleaseEndsDrag(b: Backend, xRoot: I32, yRoot: I32)
    ensures var released := OnButtonRelease(b);
      OnMotion(released, xRoot, yRoot) == released
  {
  }

  /** A press followed by motion back to the press point puts the window
      where the attributes read at the press said it was. */
  lemma DragToStartRestoresPosition(b: Backend, press: Press)
    requires press.subwindow != NO_WINDOW && press.button == BUTTON1
    requires press.subwindow in b.display.windows
    ensures var pressed := OnButtonPress(b, press);
      var moved := OnMotion(pressed, press.xRoot, press.yRoot).display;
      && press.subwindow in moved.windows
      && moved.windows[press.subwindow].x == b.display.windows[press.subwindow].x
      && moved.windows[press.subwindow].y == b.display.windows[press.subwindow].y
  {
  }

  /** ConfigureRequest: the request is granted exactly as asked, managed
      window or not. */
  function OnConfigureRequest(b: Backend, req: ConfigureRequestEvent): (r: Backend)
    ensures r == b.(display := r.display)
    ensures r.display.log == b.display.log + [ConfigureWindow(req.window, AsU32(req.valueMask),
      WindowChanges(req.x, req.y, req.width, req.height, req.borderWidth, req.above, req.detail))]
    ensures r.display.windows == b.display.windows
  {
    Log(b, ConfigureWindow(req.window, AsU32(req.valueMask),
      WindowChanges(req.x, req.y, req.width, req.height, req.borderWidth, req.above, req.detail)))
  }

  /** MappingNotify: refresh the keyboard mapping when it changed, then
      grab keys and buttons again. */
  function OnMappingNotify(b: Backend, mapping: MappingRequest): (r: Backend)
    ensures r == b.(display := r.display)
    ensures (mapping.MappingKeyboard? || mapping.MappingModifier?) ==>
      r.display == b.display.(log := b.display.log + [RefreshKeyboardMapping, GrabKeys, GrabButtons])
    ensures mapping.MappingPointer? ==> r.display == b.display.(log := b.display.log + [GrabKeys, GrabButtons])
  {
    var refresh := if mapping.MappingKeyboard? || mapping.MappingModifier? then [RefreshKeyboardMapping] else [];
    b.(display := IssueAll(b.display, refresh + [GrabKeys, GrabButtons]))
  }

  /** MapRequest: select events on the window, map it, manage it at the end
      of the list with the geometry the server reports, and focus it. */
  function OnMapRequest(b: Backend, window: Window): (r: Backend)
    ensures |r.clients| == |b.clients| + 1 && r.clients[..|b.clients|] == b.clients
    ensures r.clients[|b.clients|] == Client(GetGeometry(b.display, window), window)
    ensures r.currentClient == |b.clients|
    ensures r == b.(clients := r.clients, currentClient := r.currentClient, display := r.display)
    ensures r.display == b.display.(log := b.display.log + [SelectInput(window, MAP_REQUEST_MASK), MapWindow(window), SetInputFocus(window)])
  {
    var d := IssueAll(b.display, [SelectInput(window, MAP_REQUEST_MASK), MapWindow(window)]);
    var b1 := b.(display := d, clients := b.clients + [Client(GetGeometry(d, window), window)]);
    SetFocus(b1, Some(|b1.clients| - 1)).value
  }

  /** EnterNotify: focus the first client whose window the pointer entered;
      any other window changes nothing. */
  function OnEnterNotify(b: Backend, window: Window): (r: Backend)
    ensures ClientOf(b.clients, window).None? ==> r == b
    ensures ClientOf(b.clients, window).Some? ==>
      r == b.(currentClient := ClientOf(b.clients, window).value, display := Issue(b.display, SetInputFocus(window)))
  {
    match ClientOf(b.clients, window)
    case None => b
    case Some(i) => SetFocus(b, Some(i)).value
  }

  /** DestroyNotify: forget the first client with that window. When it was
      not the first client, the focus index is clamped to the shorter list
      and that client focused; removing the first client leaves the focus
      index and the input focus alone. */
  function OnDestroyNotify(b: Backend, window: Window): (r: Backend)
    ensures ClientOf(b.clients, window).None? ==> r == b
    ensures ClientOf(b.clients, window).Some? ==>
      var i := ClientOf(b.clients, window).value;
      && r.clients == b.clients[..i] + b.clients[i + 1..]
      && (i == 0 ==> r == b.(clients := r.clients))
      && (i > 0 ==> r.currentClient == (if i < |r.clients| then i else |r.clients| - 1))
      && (i > 0 ==> r.currentClient < |r.clients|)
      && (i > 0 ==> r == b.(clients := r.clients, currentClient := r.currentClient,
                            display := Issue(b.display, SetInputFocus(r.clients[r.currentClient].window))))
  {
    match ClientOf(b.clients, window)
    case None => b
    case Some(i) =>
      var remaining := b.clients[..i] + b.clients[i + 1..];
      var b1 := b.(clients := remaining);
      if i > 0 then
        var clamped := if |remaining| - 1 < i then |remaining| - 1 else i;
        SetFocus(b1.(currentClient := clamped), None).value
      else b1
  }

  /** The removed entry is exactly the destroyed client: the others keep
      their order. */
  lemma DestroyNotifyRemoves(b: Backend, window: Window)
    requires ClientOf(b.clients, window).Some?
    ensures var i := ClientOf(b.clients, window).value; var r := OnDestroyNotify(b, window);
      && |r.clients| == |b.clients| - 1
      && (forall j :: 0 <= j < i ==> r.clients[j] == b.clients[j])
      && (forall j :: i <= j < |r.clients| ==> r.clients[j] == b.clients[j + 1])
  {
  }

  /** Destroying the first client while the last one is focused leaves a
      focus index one past the end of the list, while the client holding the
      input focus has moved down one place. The index is never read stale:
      the only `set_focus(None)` follows a re-clamp, and every other use
      assigns it first, so this revision never panics on it. */
  lemma DestroyFirstLeavesStaleFocus(b: Backend)
    requires |b.clients| >= 2 && b.currentClient == |b.clients| - 1
    requires forall j :: 1 <= j < |b.clients| ==> b.clients[j].window != b.clients[0].window
    ensures var r := OnDestroyNotify(b, b.clients[0].window);
      && r.currentClient == |r.clients|
      && r.clients[r.currentClient - 1] == b.clients[b.currentClient]
      && SetFocus(r, None).Err?
  {
    assert ClientOf(b.clients, b.clients[0].window) == Some(0);
  }

  /** One event of the loop. Every transition of this revision succeeds. */
  function HandleEvent(b: Backend, e: XEvent): (r: Backend)
    ensures e.ButtonRelease? ==> r.start.subwindow == NO_WINDOW
    ensures e.MapRequest? ==> |r.clients| == |b.clients| + 1 && r.currentClient == |b.clients|
    ensures e.DestroyNotify? ==> |r.clients| == |b.clients| - (if ClientOf(b.clients, e.window).Some? then 1 else 0)
    ensures e.ConfigureNotify? || e.UnmapNotify? || e.ClientMessage? || e.PropertyNotify? || e.OtherEvent? ==> r == b
  {
    match e
    case KeyPress(state, keysym) => OnKeyPress(b, state, keysym)
    case ButtonPress(press) => OnButtonPress(b, press)
    case MotionNotify(_, _, xRoot, yRoot) => OnMotion(b, xRoot, yRoot)
    case ButtonRelease => OnButtonRelease(b)
    case ConfigureRequest(req) => OnConfigureRequest(b, req)
    case MappingNotify(mapping) => OnMappingNotify(b, mapping)
    case MapRequest(window) => OnMapRequest(b, window)
    case EnterNotify(window) => OnEnterNotify(b, window)
    case DestroyNotify(window) => OnDestroyNotify(b, window)
    case _ => b
  }
}
