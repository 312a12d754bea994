/** Managed windows: their geometry, the geometry cached across full-screen,
    and their placement and mode flags. */
module Clients {
  import opened MachineInt
  import opened Xlib

  /** The ICCCM normal hints cached on a geometry (the two float aspect
      fields are not modelled). */
  datatype SizeHints = SizeHints(
    baseWidth: I32, baseHeight: I32,
    maxWidth: I32, maxHeight: I32,
    minWidth: I32, minHeight: I32,
    incWidth: I32, incHeight: I32)

  /** `Default::default()` for the hint fields. */
  const NoHints: SizeHints := SizeHints(0, 0, 0, 0, 0, 0, 0, 0)

  datatype WindowGeometry = WindowGeometry(x: I32, y: I32, width: I32, height: I32, borderWidth: I32, hints: SizeHints)

  /** `WindowGeometry::new`: the five given fields, every hint zeroed. */
  function NewGeometry(x: I32, y: I32, width: I32, height: I32, borderWidth: I32): (g: WindowGeometry)
    ensures g.hints == NoHints
    ensures (g.x, g.y, g.width, g.height, g.borderWidth) == (x, y, width, height, borderWidth)
  {
    WindowGeometry(x, y, width, height, borderWidth, NoHints)
  }

  /** `WindowGeometry::fetch`: the server's reply, sizes reinterpreted as
      i32, hints zeroed. */
  function FetchGeometry(d: Display, w: Window): (g: WindowGeometry)
    ensures g.hints == NoHints
    ensures w !in d.windows ==> g == NewGeometry(0, 0, 0, 0, 0)
    ensures w in d.windows ==> g.x == d.windows[w].x && g.y == d.windows[w].y
    ensures w in d.windows ==> g.width == AsI32(d.windows[w].width) && g.height == AsI32(d.windows[w].height)
    ensures w in d.windows && d.windows[w].width < 0x8000_0000 ==> g.width == d.windows[w].width
    ensures w in d.windows && d.windows[w].height < 0x8000_0000 ==> g.height == d.windows[w].height
  {
    var s := GetGeometry(d, w);
    NewGeometry(s.x, s.y, AsI32(s.width), AsI32(s.height), AsI32(s.borderWidth))
  }

  datatype Client = Client(
    geometry: WindowGeometry,
    oldGeometry: WindowGeometry, // the geometry before full-screen was last entered
    window: Window,
    monitor: nat,
    workspace: nat,
    fullscreen: bool,
    floating: bool)

  /** The state every constructor gives a client. */
  predicate Initial(c: Client)
  {
    !c.fullscreen && !c.floating && c.oldGeometry == c.geometry
  }

  /** `Client::new` (the test constructor: window 0). */
  function NewClient(geometry: WindowGeometry, monitor: nat, workspace: nat): (c: Client)
    ensures Initial(c)
    ensures c.geometry == geometry && c.window == NO_WINDOW
    ensures c.monitor == monitor && c.workspace == workspace
  {
    Client(geometry, geometry, NO_WINDOW, monitor, workspace, false, false)
  }

  /** `Client::fetch`: a client for `window` with the geometry the server
      reports. */
  function FetchClient(d: Display, window: Window, monitor: nat, workspace: nat): (c: Client)
    ensures Initial(c)
    ensures c.geometry == FetchGeometry(d, window) && c.window == window
    ensures c.monitor == monitor && c.workspace == workspace
  {
    var g := FetchGeometry(d, window);
    Client(g, g, window, monitor, workspace, false, false)
  }

  /** `update_geometry`: re-reads the geometry from the server; the cached
      old geometry stays. */
  function UpdateGeometry(c: Client, d: Display): (r: Client)
    ensures r.geometry == FetchGeometry(d, c.window)
    ensures r.oldGeometry == c.oldGeometry && r == c.(geometry := r.geometry)
  {
    c.(geometry := FetchGeometry(d, c.window))
  }

  /** Everything but the full-screen flag and the cached geometry agree. */
  predicate SameButFullscreen(a: Client, b: Client)
  {
    a.geometry == b.geometry && a.window == b.window && a.monitor == b.monitor
    && a.workspace == b.workspace && a.floating == b.floating
  }

  /** `toggle_fullscreen`: entering full-screen caches the current geometry;
      leaving it keeps the cache. */
  function ToggleFullscreen(c: Client): (r: Client)
    ensures r.fullscreen == !c.fullscreen
    ensures !c.fullscreen ==> r.oldGeometry == c.geometry
    ensures c.fullscreen ==> r.oldGeometry == c.oldGeometry
    ensures SameButFullscreen(r, c)
  {
    c.(oldGeometry := if c.fullscreen then c.oldGeometry else c.geometry, fullscreen := !c.fullscreen)
  }

  /** Two toggles restore the flag; the cache then holds the geometry from
      before the first toggle when that toggle entered full-screen. */
  lemma ToggleFullscreenTwice(c: Client)
    ensures ToggleFullscreen(ToggleFullscreen(c)).fullscreen == c.fullscreen
    ensures !c.fullscreen ==> ToggleFullscreen(ToggleFullscreen(c)).oldGeometry == c.geometry
    ensures SameButFullscreen(ToggleFullscreen(ToggleFullscreen(c)), c)
    ensures !c.fullscreen ==> ToggleFullscreen(ToggleFullscreen(c)) == c.(oldGeometry := c.geometry)
  {
  }
}
