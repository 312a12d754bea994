/** Physical display areas: a rectangle, the workspace shown on it and the
    layout that arranges it. */
module Monitors {
  import opened MachineInt
  import opened Errors
  import opened Xlib
  import opened Clients
  import Seqs

  /** config::WORKSPACE_COUNT, the `WORKSPACES` parameter of every monitor. */
  const WORKSPACE_COUNT: nat := 9

  /** The layout function a monitor stores, by name. */
  datatype Layout = TileLayout | FloatLayout

  /** Xinerama's screen rectangle (c_short fields). */
  datatype MonitorGeometry = MonitorGeometry(x: I16, y: I16, width: I16, height: I16)

  datatype Monitor = Monitor(currentWorkspace: nat, geometry: MonitorGeometry, layout: Layout)

  /** `Monitor::new`: workspace 0, the screen's rectangle, the given layout. */
  function NewMonitor(layout: Layout, info: ScreenInfo): (m: Monitor)
    ensures m.currentWorkspace == 0 && m.layout == layout
    ensures m.geometry.x == info.xOrg && m.geometry.y == info.yOrg
    ensures m.geometry.width == info.width && m.geometry.height == info.height
  {
    Monitor(0, MonitorGeometry(info.xOrg, info.yOrg, info.width, info.height), layout)
  }

  /** `has_point`: both coordinates and every edge go through `as u32`, and
      the far edge is a wrapping u32 sum. All four edges are inclusive. */
  predicate HasPoint(m: Monitor, x: U32, y: U32)
    ensures HasPoint(m, x, y) ==> AsU32(m.geometry.x) <= x && AsU32(m.geometry.y) <= y
    ensures var g := m.geometry; var right := AsU32(g.x) + AsU32(g.width); var bottom := AsU32(g.y) + AsU32(g.height);
      right < TWO_32 && bottom < TWO_32 ==>
        (HasPoint(m, x, y) <==> AsU32(g.x) <= x <= right && AsU32(g.y) <= y <= bottom)
  {
    var g := m.geometry;
    && x >= AsU32(g.x)
    && x <= AsU32(AsU32(g.x) + AsU32(g.width))
    && y >= AsU32(g.y)
    && y <= AsU32(AsU32(g.y) + AsU32(g.height))
  }

  /** On a monitor with non-negative origin and size nothing wraps, and the
      point test is the closed rectangle [x, x + width] x [y, y + height]. */
  lemma HasPointInclusive(m: Monitor, x: U32, y: U32)
    requires m.geometry.x >= 0 && m.geometry.y >= 0 && m.geometry.width >= 0 && m.geometry.height >= 0
    ensures HasPoint(m, x, y) <==>
      m.geometry.x <= x <= m.geometry.x + m.geometry.width
      && m.geometry.y <= y <= m.geometry.y + m.geometry.height
  {
  }

  /** The u32 casts misplace monitors left of or above the origin: a monitor
      at x = -100 of width 200 does not contain x = 0, which lies inside it. */
  lemma HasPointNegativeOrigin()
    ensures var m := Monitor(0, MonitorGeometry(-100, 0, 200, 100), TileLayout);
      !HasPoint(m, 0, 0)
  {
    var m := Monitor(0, MonitorGeometry(-100, 0, 200, 100), TileLayout);
    assert AsU32(m.geometry.x) == TWO_32 - 100;
  }

  /** `has_window`: the point test applied to the window's centre, the
      half-sizes rounded toward zero and the sums taken in wrapping u32. */
  predicate HasWindow(m: Monitor, g: WindowGeometry)
    ensures g.x >= 0 && g.y >= 0 && g.width >= 0 && g.height >= 0 ==>
      var cx := g.x + g.width / 2; var cy := g.y + g.height / 2;
      cx < TWO_32 && cy < TWO_32 && (HasWindow(m, g) <==> HasPoint(m, cx, cy))
  {
    HasPoint(m, AsU32(AsU32(g.x) + AsU32(Half(g.width))), AsU32(AsU32(g.y) + AsU32(Half(g.height))))
  }

  /** For a window at non-negative coordinates, `has_window` is `has_point`
      at (x + width / 2, y + height / 2). */
  lemma HasWindowIsCentre(m: Monitor, g: WindowGeometry)
    requires g.x >= 0 && g.y >= 0 && g.width >= 0 && g.height >= 0
    ensures var cx := g.x + g.width / 2; var cy := g.y + g.height / 2;
      cx < TWO_32 && cy < TWO_32 && (HasWindow(m, g) <==> HasPoint(m, cx, cy))
  {
  }

  /** `set_current_workspace`: accepts every workspace up to and including
      WORKSPACES (one past the last valid index) and fails otherwise,
      leaving the monitor as it was. */
  function SetCurrentWorkspace(m: Monitor, workspace: nat): (r: Result<Monitor>)
    ensures r.Ok? <==> workspace <= WORKSPACE_COUNT
    ensures r.Ok? ==> r.value == m.(currentWorkspace := workspace)
    ensures r.Err? ==> r.error.Other?
  {
    if workspace <= WORKSPACE_COUNT then Ok(m.(currentWorkspace := workspace))
    else Err(Other("Workspace cannot be set beyond the maximum"))
  }

  /** The off-by-one: workspace WORKSPACE_COUNT is accepted though workspaces
      are numbered 0 .. WORKSPACE_COUNT - 1. */
  lemma SetCurrentWorkspaceAcceptsCount(m: Monitor)
    ensures SetCurrentWorkspace(m, WORKSPACE_COUNT).Ok?
    ensures SetCurrentWorkspace(m, WORKSPACE_COUNT).value.currentWorkspace == WORKSPACE_COUNT
    ensures SetCurrentWorkspace(m, WORKSPACE_COUNT + 1).Err?
  {
  }

  /** `set_layout`: a later `get_layout` returns the layout; workspace and
      geometry stay. */
  function SetLayout(m: Monitor, layout: Layout): (r: Monitor)
    ensures r.layout == layout
    ensures r.currentWorkspace == m.currentWorkspace && r.geometry == m.geometry
  {
    m.(layout := layout)
  }

  /** `MonitorManager::from_iter`: pushes the monitors one by one. */
  method FromIter(monitors: seq<Monitor>) returns (manager: seq<Monitor>)
    ensures |manager| == |monitors|
    ensures forall i :: 0 <= i < |monitors| ==> manager[i] == monitors[i]
  {
    manager := [];
    var i := 0;
    while i < |monitors|
      invariant 0 <= i <= |monitors|
      invariant manager == monitors[..i]
    {
      manager := manager + [monitors[i]];
      i := i + 1;
    }
  }

  /** Rebuilding the collection from Xinerama's screens (`fetch_monitors`):
      one fresh monitor per screen, in screen order. */
  function MonitorsFromScreens(layout: Layout, screens: seq<ScreenInfo>): (ms: seq<Monitor>)
    ensures |ms| == |screens|
    ensures forall i :: 0 <= i < |ms| ==> ms[i] == NewMonitor(layout, screens[i])
  {
    seq(|screens|, i requires 0 <= i < |screens| => NewMonitor(layout, screens[i]))
  }

  /** The first monitor holding the window's centre, as `set_client_monitor`
      looks it up. */
  function MonitorOfWindow(monitors: seq<Monitor>, g: WindowGeometry): (r: Option<nat>)
    ensures r.Some? ==> r.value < |monitors| && HasWindow(monitors[r.value], g)
    ensures r.Some? ==> forall j :: 0 <= j < r.value ==> !HasWindow(monitors[j], g)
    ensures r.None? <==> forall j :: 0 <= j < |monitors| ==> !HasWindow(monitors[j], g)
  {
    Seqs.Position(monitors, m => HasWindow(m, g))
  }
}
