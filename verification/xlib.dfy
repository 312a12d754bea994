/** The window system as the window manager sees it. Every xlib call the
    source makes becomes an `Effect` appended to the display's log; the few
    replies the source reads back (geometry, WM_PROTOCOLS, _NET_WM_STATE,
    Xinerama screens) are stored on the display. */
module Xlib {
  import opened MachineInt
  import opened Errors

  type Window = nat  // xlib::Window; 0 is "no window"
  type Atom = nat    // xlib::Atom, as returned by XInternAtom

  const NO_WINDOW: Window := 0
  const BUTTON1: nat := 1
  const BUTTON3: nat := 3
  /** X protocol error code BadWindow. */
  const BAD_WINDOW: nat := 3
  /** xlib::CurrentTime. */
  const CURRENT_TIME: int := 0

  /** The reply of XGetGeometry: signed position, unsigned sizes. */
  datatype ServerGeometry = ServerGeometry(x: I32, y: I32, width: U32, height: U32, borderWidth: U32, depth: U32)

  /** The geometry XGetGeometry leaves in its zero-initialised out-parameters
      when the window does not exist. */
  const NoServerGeometry: ServerGeometry := ServerGeometry(0, 0, 0, 0, 0, 0)

  /** One xinerama::XineramaScreenInfo. */
  datatype ScreenInfo = ScreenInfo(xOrg: I16, yOrg: I16, width: I16, height: I16)

  datatype CursorShape = NormalCursor | ResizeCursor | MoveCursor
  datatype ErrorHandler = XErrorHandler | DummyErrorHandler

  /** xlib::XWindowChanges. */
  datatype WindowChanges = WindowChanges(x: I32, y: I32, width: I32, height: I32, borderWidth: I32, sibling: Window, stackMode: I32)

  /** The geometry fields of a synthetic ConfigureNotify event. */
  datatype ConfigureNotifyValues = ConfigureNotifyValues(x: I32, y: I32, width: I32, height: I32, borderWidth: I32)

  /** The xlib calls the window manager issues. */
  datatype Effect =
    | SelectInput(window: Window, mask: nat)
    | MapWindow(window: Window)
    | UnmapWindow(window: Window)
    | RaiseWindow(window: Window)
    | SetInputFocus(window: Window)
    | FocusPointerRoot
    | MoveWindow(window: Window, x: I32, y: I32)
    | ResizeWindow(window: Window, width: U32, height: U32)
    | MoveResizeWindow(window: Window, x: I32, y: I32, width: U32, height: U32)
    | ConfigureWindow(window: Window, valueMask: U32, changes: WindowChanges)
    | SendConfigureNotify(window: Window, notify: ConfigureNotifyValues)
    | SendClientMessage(window: Window, messageType: Atom, data0: Atom, data1: int)
    | GrabServer
    | UngrabServer
    | SetErrorHandler(handler: ErrorHandler)
    | SetCloseDownModeDestroyAll
    | KillClient(window: Window)
    | Sync
    | DefineCursor(cursor: CursorShape)
    | WarpPointer(window: Window, destX: int, destY: int)
    | SetWindowState(window: Window, state: Atom)
    | RefreshKeyboardMapping
    | GrabKeys
    | GrabButtons
    | DestroyWindow(window: Window)
    | CloseDisplay
    // Helpers of the controller whose bodies are not part of this model.
    | Arrange(monitor: nat, workspace: nat)
    | FocusCurrentMonitor
    | Focus(client: nat)

  datatype Display = Display(
    windows: map<Window, ServerGeometry>, // existing windows and their geometry
    protocols: map<Window, seq<Atom>>,    // WM_PROTOCOLS, where set
    wmState: map<Window, Atom>,           // first atom of _NET_WM_STATE, where set
    xineramaLoads: bool,                  // whether the Xinerama library can be opened
    screens: Option<seq<ScreenInfo>>,     // None when Xinerama is inactive
    log: seq<Effect>)

  /** The geometry XGetGeometry reports for `w`. */
  function GetGeometry(d: Display, w: Window): (g: ServerGeometry)
    ensures w !in d.windows ==> g == NoServerGeometry
    ensures w in d.windows ==> g == d.windows[w]
  {
    if w in d.windows then d.windows[w] else NoServerGeometry
  }

  /** The server's geometry for a window after it has processed `e`. */
  function Apply(g: ServerGeometry, e: Effect): ServerGeometry
  {
    match e
    case MoveWindow(_, x, y) => g.(x := x, y := y)
    case ResizeWindow(_, w, h) => g.(width := w, height := h)
    case MoveResizeWindow(_, x, y, w, h) => g.(x := x, y := y, width := w, height := h)
    case _ => g
  }

  predicate MovesOrResizes(e: Effect)
  {
    e.MoveWindow? || e.ResizeWindow? || e.MoveResizeWindow?
  }

  /** Issues one request: it is logged, and a move or resize of an existing
      window changes the geometry the server reports afterwards. */
  function Issue(d: Display, e: Effect): (r: Display)
    ensures r.log == d.log + [e]
    ensures r.protocols == d.protocols && r.wmState == d.wmState && r.screens == d.screens
    ensures r.xineramaLoads == d.xineramaLoads
    ensures forall w :: w in r.windows <==> w in d.windows
    ensures forall w :: w in d.windows && !(MovesOrResizes(e) && e.window == w) ==> r.windows[w] == d.windows[w]
    ensures MovesOrResizes(e) && e.window in d.windows ==> r.windows[e.window] == Apply(d.windows[e.window], e)
  {
    var windows := if MovesOrResizes(e) && e.window in d.windows
      then d.windows[e.window := Apply(d.windows[e.window], e)]
      else d.windows;
    d.(windows := windows, log := d.log + [e])
  }

  /** Issues requests that change no geometry, in order. */
  function IssueAll(d: Display, es: seq<Effect>): (r: Display)
    requires forall i :: 0 <= i < |es| ==> !MovesOrResizes(es[i])
    ensures r == d.(log := d.log + es)
    decreases |es|
  {
    if |es| == 0 then d
    else IssueAll(Issue(d, es[0]), es[1..])
  }

  /** The press recorded by ButtonPress (xlib::XButtonEvent, the fields read). */
  datatype Press = Press(subwindow: Window, button: nat, xRoot: I32, yRoot: I32)

  /** A zeroed XButtonEvent: no press in progress. */
  const NoPress: Press := Press(NO_WINDOW, 0, 0, 0)

  /** The fields of xlib::XWindowAttributes the source reads. */
  datatype Attributes = Attributes(x: I32, y: I32, width: I32, height: I32)

  const NoAttributes: Attributes := Attributes(0, 0, 0, 0)

  /** XGetWindowAttributes: fills the attributes when the window exists and
      leaves them as they were otherwise. */
  function GetWindowAttributes(d: Display, w: Window, previous: Attributes): (a: Attributes)
    ensures w in d.windows ==>
      && a.x == d.windows[w].x && a.y == d.windows[w].y
      && a.width == AsI32(d.windows[w].width) && a.height == AsI32(d.windows[w].height)
    ensures w !in d.windows ==> a == previous
  {
    if w in d.windows then
      var g := d.windows[w];
      Attributes(g.x, g.y, AsI32(g.width), AsI32(g.height))
    else previous
  }

  datatype MappingRequest = MappingModifier | MappingKeyboard | MappingPointer

  /** xlib::XConfigureRequestEvent. */
  datatype ConfigureRequestEvent = ConfigureRequestEvent(
    window: Window, x: I32, y: I32, width: I32, height: I32, borderWidth: I32,
    above: Window, detail: I32, valueMask: nat)

  /** The protocol events the dispatchers read; motion events arrive already
      coalesced (the last of a run of MotionNotify events). */
  datatype XEvent =
    | KeyPress(state: U32, keysym: nat)
    | ButtonPress(press: Press)
    | MotionNotify(window: Window, subwindow: Window, xRoot: I32, yRoot: I32)
    | ButtonRelease
    | ConfigureRequest(request: ConfigureRequestEvent)
    | ConfigureNotify(window: Window)
    | MappingNotify(mapping: MappingRequest)
    | MapRequest(window: Window)
    | UnmapNotify(window: Window)
    | EnterNotify(window: Window)
    | DestroyNotify(window: Window)
    | ClientMessage(window: Window, messageType: Atom, action: int, first: int, second: int)
    | PropertyNotify(atom: Atom)
    | OtherEvent

  /** The error handler installed at start-up: 0 (ignore) for BadWindow, 1
      for every other error code. */
  function XError(errorCode: nat): (r: int)
    ensures r == 0 <==> errorCode == BAD_WINDOW
    ensures r == 0 || r == 1
  {
    if errorCode == BAD_WINDOW then 0 else 1
  }

  /** The handler installed around a forced kill: ignores every error. */
  function XErrorDummy(errorCode: nat): (r: int)
    ensures r == 0
  {
    0
  }
}
