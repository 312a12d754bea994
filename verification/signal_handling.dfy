/** The signal controller of src/backend/signal.rs: the backend pops one
    signal from the signal stack and acts on it. This revision keeps the
    focused client as an optional index. The helpers it calls whose bodies
    are not part of this model (`arrange`, `focus_current_monitor`,
    `set_focus`) appear as effects in the display's log. */
module SignalHandling {
  import opened MachineInt
  import opened Errors
  import opened Xlib
  import opened Clients
  import opened Monitors
  import opened Protocols
  import Signals

  /** One entry of the configured layout list: a name and its layout. */
  datatype NamedLayout = NamedLayout(name: string, layout: Layout)

  datatype Backend = Backend(
    display: Display,
    root: Window,
    atoms: Atoms,
    layouts: seq<NamedLayout>,
    signals: Signals.SignalStack,
    clients: seq<Client>,
    currentClient: Option<nat>,
    monitors: seq<Monitor>,
    currentMonitor: nat)

  function Log(b: Backend, e: Effect): Backend
  {
    b.(display := Issue(b.display, e))
  }

  function LogAll(b: Backend, es: seq<Effect>): Backend
    requires forall i :: 0 <= i < |es| ==> !MovesOrResizes(es[i])
  {
    b.(display := IssueAll(b.display, es))
  }

  /** A client is visible on `workspace` when it is on the current monitor
      and on that workspace. */
  predicate Visible(c: Client, monitor: nat, workspace: nat)
  {
    c.monitor == monitor && c.workspace == workspace
  }

  /** The windows of the clients visible on `workspace` of `monitor`, in
      client order. */
  function VisibleWindows(cs: seq<Client>, monitor: nat, workspace: nat): (ws: seq<Window>)
    ensures |ws| <= |cs|
    ensures forall k :: 0 <= k < |ws| ==>
      exists i :: 0 <= i < |cs| && Visible(cs[i], monitor, workspace) && cs[i].window == ws[k]
    ensures forall i :: 0 <= i < |cs| && Visible(cs[i], monitor, workspace) ==> cs[i].window in ws
  {
    if |cs| == 0 then []
    else
      var rest := VisibleWindows(cs[1..], monitor, workspace);
      assert forall i :: 1 <= i < |cs| ==> cs[i] == cs[1..][i - 1];
      if Visible(cs[0], monitor, workspace) then [cs[0].window] + rest else rest
  }

  function MapEach(ws: seq<Window>): (es: seq<Effect>)
    ensures |es| == |ws| && forall i :: 0 <= i < |ws| ==> es[i] == MapWindow(ws[i])
  {
    seq(|ws|, i requires 0 <= i < |ws| => MapWindow(ws[i]))
  }

  function UnmapEach(ws: seq<Window>): (es: seq<Effect>)
    ensures |es| == |ws| && forall i :: 0 <= i < |ws| ==> es[i] == UnmapWindow(ws[i])
  {
    seq(|ws|, i requires 0 <= i < |ws| => UnmapWindow(ws[i]))
  }

  /** The window of every client, in order. */
  function WindowsOf(cs: seq<Client>): (ws: seq<Window>)
    ensures |ws| == |cs| && forall i :: 0 <= i < |cs| ==> ws[i] == cs[i].window
  {
    seq(|cs|, i requires 0 <= i < |cs| => cs[i].window)
  }

  // ------------------------------------------------------------ quit

  /** `quit`: every client window is mapped, the focus goes back to the
      pointer root, the root window is destroyed and the display closed.
      Only the log changes. */
  function Quit(b: Backend): (r: Backend)
    ensures r == b.(display := r.display)
    ensures r.display == b.display.(log := r.display.log)
    ensures r.display.log == b.display.log + MapEach(WindowsOf(b.clients))
      + [FocusPointerRoot, Sync, DestroyWindow(b.root), CloseDisplay]
  {
    LogAll(b, MapEach(WindowsOf(b.clients)) + [FocusPointerRoot, Sync, DestroyWindow(b.root), CloseDisplay])
  }

  // ------------------------------------------------------------ kill

  /** `kill_client`: the focused client, when there is one and the index is
      in range, is asked to close or is killed; nothing else changes. */
  function KillFocused(b: Backend): (r: Backend)
    ensures r == b.(display := r.display)
    ensures !(b.currentClient.Some? && b.currentClient.value < |b.clients|) ==> r == b
    ensures b.currentClient.Some? && b.currentClient.value < |b.clients| ==>
      r.display == KillWindow(b.display, b.atoms, b.clients[b.currentClient.value].window)
  {
    match b.currentClient
    case Some(c) =>
      if c < |b.clients| then b.(display := KillWindow(b.display, b.atoms, b.clients[c].window)) else b
    case None => b
  }

  /** The focused client is closed politely exactly when it advertises
      WM_DELETE_WINDOW, and killed exactly when it does not. */
  lemma KillFocusedIsTwoTier(b: Backend)
    requires b.currentClient.Some? && b.currentClient.value < |b.clients|
    ensures var w := b.clients[b.currentClient.value].window;
      var added := KillFocused(b).display.log[|b.display.log|..];
      && (SendClientMessage(w, b.atoms.wmProtocols, b.atoms.wmDelete, CURRENT_TIME) in added
          <==> Advertises(b.display, w, b.atoms.wmDelete))
      && (Xlib.KillClient(w) in added <==> !Advertises(b.display, w, b.atoms.wmDelete))
  {
    KillIsTwoTier(b.display, b.atoms, b.clients[b.currentClient.value].window);
  }

  // ------------------------------------------------------------ floating

  /** `toggle_floating`: flips one client's floating flag, raises its window
      and re-arranges the current workspace of the current monitor. An index
      out of range, for the client or the monitor, panics. */
  function ToggleFloating(b: Backend, index: nat): (r: Result<Backend>)
    ensures r.Ok? <==> index < |b.clients| && b.currentMonitor < |b.monitors|
    ensures r.Err? ==> r.error == OutOfBounds
    ensures r.Ok? ==>
      var c := b.clients[index];
      && r.value.clients == b.clients[index := c.(floating := !c.floating)]
      && r.value == b.(clients := r.value.clients, display := r.value.display)
      && r.value.display == b.display.(log := r.value.display.log)
      && r.value.display.log == b.display.log
        + [RaiseWindow(c.window), Arrange(b.currentMonitor, b.monitors[b.currentMonitor].currentWorkspace)]
  {
    if index >= |b.clients| then Err(OutOfBounds)
    else
      var c := b.clients[index];
      var b1 := Log(b.(clients := b.clients[index := c.(floating := !c.floating)]), RaiseWindow(c.window));
      if b.currentMonitor >= |b.monitors| then Err(OutOfBounds)
      else Ok(Log(b1, Arrange(b.currentMonitor, b.monitors[b.currentMonitor].currentWorkspace)))
  }

  /** Toggling twice restores the flag: the clients and monitors are as
      before, and the window was raised and re-arranged twice. */
  lemma ToggleFloatingTwice(b: Backend, index: nat)
    requires index < |b.clients| && b.currentMonitor < |b.monitors|
    ensures ToggleFloating(b, index).Ok?
    ensures ToggleFloating(ToggleFloating(b, index).value, index).Ok?
    ensures var r := ToggleFloating(ToggleFloating(b, index).value, index).value;
      r == b.(display := r.display)
  {
    var c := b.clients[index];
    var once := ToggleFloating(b, index).value;
    assert once.clients[index] == c.(floating := !c.floating);
    assert once.clients[index := c] == b.clients;
  }

  // ------------------------------------------------------------ layout

  /** Every client of `monitor` loses its floating flag; the others stay. */
  function Unfloat(cs: seq<Client>, monitor: nat): (r: seq<Client>)
    ensures |r| == |cs|
    ensures forall i :: 0 <= i < |cs| && cs[i].monitor == monitor ==> r[i] == cs[i].(floating := false)
    ensures forall i :: 0 <= i < |cs| && cs[i].monitor != monitor ==> r[i] == cs[i]
  {
    seq(|cs|, i requires 0 <= i < |cs| => if cs[i].monitor == monitor then cs[i].(floating := false) else cs[i])
  }

  /** One Arrange request per workspace of `monitor`, in workspace order. */
  function ArrangeEvery(monitor: nat): (es: seq<Effect>)
    ensures |es| == WORKSPACE_COUNT
    ensures forall w :: 0 <= w < WORKSPACE_COUNT ==> es[w] == Arrange(monitor, w)
  {
    seq(WORKSPACE_COUNT, w requires 0 <= w < WORKSPACE_COUNT => Arrange(monitor, w))
  }

  /** `set_layout`: the current monitor takes the layout at `layoutIndex`,
      none of its clients floats any more, and each of its workspaces is
      re-arranged. An index out of range panics. */
  function ResetLayout(b: Backend, layoutIndex: nat): (r: Result<Backend>)
    ensures r.Ok? <==> b.currentMonitor < |b.monitors| && layoutIndex < |b.layouts|
    ensures r.Err? ==> r.error == OutOfBounds
    ensures r.Ok? ==>
      && r.value.monitors == b.monitors[b.currentMonitor := SetLayout(b.monitors[b.currentMonitor], b.layouts[layoutIndex].layout)]
      && |r.value.clients| == |b.clients|
      && (forall i :: 0 <= i < |b.clients| ==>
            r.value.clients[i] == if b.clients[i].monitor == b.currentMonitor then b.clients[i].(floating := false) else b.clients[i])
      && r.value == b.(monitors := r.value.monitors, clients := r.value.clients, display := r.value.display)
      && r.value.display == b.display.(log := b.display.log + ArrangeEvery(b.currentMonitor))
  {
    if b.currentMonitor >= |b.monitors| || layoutIndex >= |b.layouts| then Err(OutOfBounds)
    else
      var cm := b.currentMonitor;
      var b1 := b.(monitors := b.monitors[cm := SetLayout(b.monitors[cm], b.layouts[layoutIndex].layout)],
                   clients := Unfloat(b.clients, cm));
      Ok(LogAll(b1, ArrangeEvery(cm)))
  }

  /** Setting the same layout again changes no client and no monitor. */
  lemma ResetLayoutIdempotent(b: Backend, layoutIndex: nat)
    requires b.currentMonitor < |b.monitors| && layoutIndex < |b.layouts|
    ensures var once := ResetLayout(b, layoutIndex).value;
      var twice := ResetLayout(once, layoutIndex).value;
      twice.clients == once.clients && twice.monitors == once.monitors
  {
    var once := ResetLayout(b, layoutIndex).value;
    var twice := ResetLayout(once, layoutIndex).value;
    assert |twice.clients| == |once.clients|;
    forall i | 0 <= i < |once.clients|
      ensures twice.clients[i] == once.clients[i]
    {
      assert once.clients[i].monitor == b.clients[i].monitor;
    }
  }

  // ------------------------------------------------------------ workspaces

  /** `change_workspace`: when the workspace differs from the current
      monitor's, the windows visible on the old workspace are unmapped, those
      of the new one mapped, and the monitor's workspace is set, which fails
      beyond WORKSPACE_COUNT. Asking for the current workspace does nothing.
      A current monitor out of range panics. */
  function ChangeWorkspace(b: Backend, workspace: nat): (r: Result<Backend>)
    ensures b.currentMonitor >= |b.monitors| ==> r == Err(OutOfBounds)
    ensures b.currentMonitor < |b.monitors| && b.monitors[b.currentMonitor].currentWorkspace == workspace ==> r == Ok(b)
    ensures b.currentMonitor < |b.monitors| && b.monitors[b.currentMonitor].currentWorkspace != workspace ==>
      (r.Ok? <==> workspace <= WORKSPACE_COUNT)
    ensures r.Err? && b.currentMonitor < |b.monitors| ==> r.error.Other?
    ensures r.Ok? ==>
      var cm := b.currentMonitor;
      var previous := b.monitors[cm].currentWorkspace;
      && r.value.monitors == b.monitors[cm := b.monitors[cm].(currentWorkspace := workspace)]
      && r.value == b.(monitors := r.value.monitors, display := r.value.display)
      && r.value.display == b.display.(log := r.value.display.log)
      && (previous != workspace ==>
            r.value.display.log == b.display.log
              + UnmapEach(VisibleWindows(b.clients, cm, previous)) + MapEach(VisibleWindows(b.clients, cm, workspace)))
  {
    if b.currentMonitor >= |b.monitors| then Err(OutOfBounds)
    else
      var cm := b.currentMonitor;
      var m := b.monitors[cm];
      if m.currentWorkspace == workspace then Ok(b)
      else
        var b1 := LogAll(b, UnmapEach(VisibleWindows(b.clients, cm, m.currentWorkspace)));
        var b2 := LogAll(b1, MapEach(VisibleWindows(b.clients, cm, workspace)));
        var m' :- SetCurrentWorkspace(m, workspace);
        Ok(b2.(monitors := b.monitors[cm := m']))
  }

  lemma InUnmapEach(ws: seq<Window>, w: Window)
    ensures UnmapWindow(w) in UnmapEach(ws) <==> w in ws
    ensures MapWindow(w) !in UnmapEach(ws)
  {
    if w in ws {
      var k :| 0 <= k < |ws| && ws[k] == w;
      assert UnmapEach(ws)[k] == UnmapWindow(w);
    }
  }

  lemma InMapEach(ws: seq<Window>, w: Window)
    ensures MapWindow(w) in MapEach(ws) <==> w in ws
    ensures UnmapWindow(w) !in MapEach(ws)
  {
    if w in ws {
      var k :| 0 <= k < |ws| && ws[k] == w;
      assert MapEach(ws)[k] == MapWindow(w);
    }
  }

  /** A window is in the visible list exactly when some visible client has it. */
  lemma InVisibleWindows(cs: seq<Client>, monitor: nat, workspace: nat, w: Window)
    ensures w in VisibleWindows(cs, monitor, workspace) <==>
      exists i :: 0 <= i < |cs| && Visible(cs[i], monitor, workspace) && cs[i].window == w
  {
    var ws := VisibleWindows(cs, monitor, workspace);
    if w in ws {
      var k :| 0 <= k < |ws| && ws[k] == w;
    }
  }

  lemma AddedSuffix(before: seq<Effect>, first: seq<Effect>, second: seq<Effect>)
    ensures (before + first + second)[|before|..] == first + second
    ensures forall e :: e in first + second <==> e in first || e in second
  {
    assert before + first + second == before + (first + second);
  }

  /** A window is unmapped by a workspace change exactly when some client
      visible on the old workspace has it, and mapped exactly when some
      client visible on the new one has it. */
  lemma ChangeWorkspaceSwapsVisible(b: Backend, workspace: nat, w: Window)
    requires b.currentMonitor < |b.monitors|
    requires b.monitors[b.currentMonitor].currentWorkspace != workspace
    requires ChangeWorkspace(b, workspace).Ok?
    ensures var added := ChangeWorkspace(b, workspace).value.display.log[|b.display.log|..];
      var cm := b.currentMonitor;
      && (UnmapWindow(w) in added <==>
            exists i :: 0 <= i < |b.clients| && Visible(b.clients[i], cm, b.monitors[cm].currentWorkspace) && b.clients[i].window == w)
      && (MapWindow(w) in added <==>
            exists i :: 0 <= i < |b.clients| && Visible(b.clients[i], cm, workspace) && b.clients[i].window == w)
  {
    var cm := b.currentMonitor;
    var hidden := VisibleWindows(b.clients, cm, b.monitors[cm].currentWorkspace);
    var shown := VisibleWindows(b.clients, cm, workspace);
    var log := ChangeWorkspace(b, workspace).value.display.log;
    assert log == b.display.log + UnmapEach(hidden) + MapEach(shown);
    AddedSuffix(b.display.log, UnmapEach(hidden), MapEach(shown));
    InUnmapEach(hidden, w);
    InMapEach(shown, w);
    InVisibleWindows(b.clients, cm, b.monitors[cm].currentWorkspace, w);
    InVisibleWindows(b.clients, cm, workspace, w);
  }

  /** `move_to_workspace`: the focused client, when its workspace differs,
      is moved to `workspace`, its window unmapped, and both the current
      workspace and the target re-arranged. An index out of range panics;
      without a focused client nothing happens. */
  function MoveToWorkspace(b: Backend, workspace: nat): (r: Result<Backend>)
    ensures b.currentClient.None? ==> r == Ok(b)
    ensures b.currentClient.Some? && b.currentClient.value >= |b.clients| ==> r == Err(OutOfBounds)
    ensures (b.currentClient.Some? && b.currentClient.value < |b.clients|
             && b.clients[b.currentClient.value].workspace == workspace) ==> r == Ok(b)
    ensures (b.currentClient.Some? && b.currentClient.value < |b.clients|
             && b.clients[b.currentClient.value].workspace != workspace) ==>
      (r.Ok? <==> b.currentMonitor < |b.monitors|)
    ensures r.Err? ==> r.error == OutOfBounds
    ensures r.Ok? && r.value != b ==>
      var index := b.currentClient.value;
      var c := b.clients[index];
      && index < |b.clients| && b.currentMonitor < |b.monitors|
      && r.value.clients == b.clients[index := c.(workspace := workspace)]
      && r.value == b.(clients := r.value.clients, display := r.value.display)
      && r.value.display == b.display.(log := r.value.display.log)
      && r.value.display.log == b.display.log + [UnmapWindow(c.window),
           Arrange(b.currentMonitor, b.monitors[b.currentMonitor].currentWorkspace),
           Arrange(b.currentMonitor, workspace)]
  {
    match b.currentClient
    case None => Ok(b)
    case Some(index) =>
      if index >= |b.clients| then Err(OutOfBounds)
      else
        var c := b.clients[index];
        if c.workspace == workspace then Ok(b)
        else
          var b1 := Log(b.(clients := b.clients[index := c.(workspace := workspace)]), UnmapWindow(c.window));
          if b.currentMonitor >= |b.monitors| then Err(OutOfBounds)
          else
            var cm := b.currentMonitor;
            Ok(Log(Log(b1, Arrange(cm, b.monitors[cm].currentWorkspace)), Arrange(cm, workspace)))
  }

  /** Moving to the same workspace again does nothing more: after the first
      move the focused client is already there. */
  lemma MoveToWorkspaceIdempotent(b: Backend, workspace: nat)
    requires MoveToWorkspace(b, workspace).Ok?
    ensures MoveToWorkspace(MoveToWorkspace(b, workspace).value, workspace) == MoveToWorkspace(b, workspace)
  {
  }

  // ------------------------------------------------------------ monitor focus

  /** The monitor `focus_monitor` moves to: up to the next one, wrapping to
      0 after the last; down to the previous one, wrapping to the last. The
      `len() - 1` wraps when there is no monitor. */
  function NextMonitor(current: nat, count: nat, dir: Signals.Dir): (r: nat)
    ensures current < count <= TWO_64 ==> r < count
    ensures count == 0 && current == 0 && dir.Down? ==> r == TWO_64 - 1
  {
    match dir
    case Up => if current < AsUsize(count - 1) then current + 1 else 0
    case Down => if current > 0 then current - 1 else AsUsize(count - 1)
  }

  /** On a non-empty monitor list, up is +1 and down is -1 modulo the count. */
  lemma NextMonitorWraps(current: nat, count: nat)
    requires current < count <= TWO_64
    ensures NextMonitor(current, count, Signals.Up) == (current + 1) % count
    ensures NextMonitor(current, count, Signals.Down) == (current + count - 1) % count
  {
    assert AsUsize(count - 1) == count - 1;
    if current == count - 1 {
      ModUnique(current + 1, count, 1, 0);
    } else {
      ModUnique(current + 1, count, 0, current + 1);
    }
    if current > 0 {
      ModUnique(current + count - 1, count, 1, current - 1);
    } else {
      ModUnique(current + count - 1, count, 0, count - 1);
    }
  }

  /** Going up and then down, or down and then up, returns to the monitor
      one started on. */
  lemma NextMonitorInverse(current: nat, count: nat)
    requires current < count <= TWO_64
    ensures NextMonitor(NextMonitor(current, count, Signals.Up), count, Signals.Down) == current
    ensures NextMonitor(NextMonitor(current, count, Signals.Down), count, Signals.Up) == current
  {
  }

  /** Where `focus_monitor` warps the pointer once `monitor` is current:
      the centre of the focused client, or without one the centre of the
      monitor (computed in i16). An index out of range panics. */
  function PointerTarget(b: Backend, monitor: nat): (r: Result<Effect>)
    ensures r.Err? ==> r.error == OutOfBounds
    ensures b.currentClient.Some? ==> (r.Ok? <==> b.currentClient.value < |b.clients|)
    ensures b.currentClient.Some? && r.Ok? ==> var c := b.clients[b.currentClient.value];
      r.value == WarpPointer(c.window, Half(c.geometry.width), Half(c.geometry.height))
    ensures b.currentClient.None? ==> (r.Ok? <==> monitor < |b.monitors|)
    ensures b.currentClient.None? && r.Ok? ==> var g := b.monitors[monitor].geometry;
      r.value == WarpPointer(b.root, AsI16(g.x + Half(g.width)), AsI16(g.y + Half(g.height)))
  {
    match b.currentClient
    case Some(c) =>
      if c >= |b.clients| then Err(OutOfBounds)
      else
        var g := b.clients[c].geometry;
        Ok(WarpPointer(b.clients[c].window, Half(g.width), Half(g.height)))
    case None =>
      if monitor >= |b.monitors| then Err(OutOfBounds)
      else
        var g := b.monitors[monitor].geometry;
        Ok(WarpPointer(b.root, AsI16(g.x + Half(g.width)), AsI16(g.y + Half(g.height))))
  }

  /** `focus_monitor`: switches the current monitor, focuses it and warps
      the pointer. `focus_current_monitor`, whose body is not part of this
      model, runs between the switch and the warp and may move the focus;
      `focused` is the focused client it leaves, and the warp is aimed from
      that focus. Nothing else changes. */
  function FocusMonitor(b: Backend, dir: Signals.Dir, focused: Option<nat>): (r: Result<Backend>)
    ensures var next := NextMonitor(b.currentMonitor, |b.monitors|, dir);
      var b1 := b.(currentMonitor := next, currentClient := focused);
      && (r.Ok? <==> PointerTarget(b1, next).Ok?)
      && (r.Err? ==> r.error == OutOfBounds)
      && (r.Ok? ==> r.value == b1.(display := b.display.(log := b.display.log + [FocusCurrentMonitor, PointerTarget(b1, next).value])))
    ensures focused.Some? ==> (r.Ok? <==> focused.value < |b.clients|)
    ensures focused.Some? && r.Ok? ==> var c := b.clients[focused.value];
      r.value.display.log[|b.display.log| + 1] == WarpPointer(c.window, Half(c.geometry.width), Half(c.geometry.height))
  {
    var next := NextMonitor(b.currentMonitor, |b.monitors|, dir);
    var b1 := b.(currentMonitor := next, currentClient := focused);
    var warp :- PointerTarget(b1, next);
    Ok(b1.(display := IssueAll(b.display, [FocusCurrentMonitor, warp])))
  }

  // ------------------------------------------------------------ stack focus

  /** The client index at step `j` of the cyclic walk `focus_stack` makes:
      `cycle().skip(skip)` over the clients, reversed for Down. */
  function Visit(dir: Signals.Dir, count: nat, skip: nat, j: nat): (r: nat)
    requires count > 0
    ensures r < count
  {
    match dir
    case Up => (skip + j) % count
    case Down => count - 1 - (skip + j) % count
  }

  /** How many elements of the cycle are skipped before the search starts:
      past the focused client going up, `len() - current` going down. */
  function Skip(dir: Signals.Dir, count: nat, current: nat): nat
  {
    match dir
    case Up => AsUsize(current + 1)
    case Down => AsUsize(count - current)
  }

  /** The first step at or after `j`, and before `count`, whose client is
      visible. */
  function FirstVisibleStep(cs: seq<Client>, monitor: nat, workspace: nat, dir: Signals.Dir, skip: nat, j: nat): (r: Option<nat>)
    requires |cs| > 0 && j <= |cs|
    ensures r.Some? ==> j <= r.value < |cs| && Visible(cs[Visit(dir, |cs|, skip, r.value)], monitor, workspace)
    ensures r.Some? ==> forall t :: j <= t < r.value ==> !Visible(cs[Visit(dir, |cs|, skip, t)], monitor, workspace)
    ensures r.None? ==> forall t :: j <= t < |cs| ==> !Visible(cs[Visit(dir, |cs|, skip, t)], monitor, workspace)
    decreases |cs| - j
  {
    if j == |cs| then None
    else if Visible(cs[Visit(dir, |cs|, skip, j)], monitor, workspace) then Some(j)
    else FirstVisibleStep(cs, monitor, workspace, dir, skip, j + 1)
  }

  /** Some client is visible on the current workspace of the current monitor. */
  predicate SomeVisible(b: Backend)
    requires b.currentMonitor < |b.monitors|
  {
    exists i :: 0 <= i < |b.clients| && Visible(b.clients[i], b.currentMonitor, b.monitors[b.currentMonitor].currentWorkspace)
  }

  /** The cases in which `focus_stack` returns: no focused client, a panic
      on the current monitor, no client at all, or some visible client for
      the cyclic search to find. */
  predicate FocusStackTerminates(b: Backend)
  {
    b.currentClient.None? || b.currentMonitor >= |b.monitors| || |b.clients| == 0 || SomeVisible(b)
  }

  /** Every index is reached by the walk within its first `count` steps, so
      searching the first cycle is searching the whole infinite walk. */
  lemma {:induction false} VisitCovers(dir: Signals.Dir, count: nat, skip: nat, i: nat)
    requires i < count
    ensures var j := (match dir case Up => i - skip case Down => count - 1 - i - skip) % count;
      0 <= j < count && Visit(dir, count, skip, j) == i
  {
    var target := match dir case Up => i case Down => count - 1 - i;
    var j := (target - skip) % count;
    assert (skip + j) % count == target by {
      ModOfShifted(skip, target, count);
    }
  }

  /** (s + (t - s) mod n) mod n == t for 0 <= t < n. */
  lemma {:induction false} ModOfShifted(s: nat, t: nat, n: nat)
    requires t < n
    ensures (s + (t - s) % n) % n == t
  {
    var q := (t - s) / n;
    var m := (t - s) % n;
    assert t - s == q * n + m;
    assert s + m == (-q) * n + t by {
      assert (-q) * n == -(q * n);
    }
    ModUnique(s + m, n, -q, t);
  }

  /** Going up from a focused client inside the list visits c+1, c+2, …,
      wrapping round to c; going down visits c-1, c-2, …, wrapping round to
      c. (A vector's length stays below 2^64, so the skip does not wrap.) */
  lemma {:induction false} VisitOrder(count: nat, current: nat, j: nat)
    requires current < count < TWO_64
    ensures Visit(Signals.Up, count, Skip(Signals.Up, count, current), j) == (current + 1 + j) % count
    ensures Visit(Signals.Down, count, Skip(Signals.Down, count, current), j) == (current + count - 1 - j % count) % count
  {
    var t := (count - current + j) % count;
    var q := (count - current + j) / count;
    assert count - current + j == q * count + t;
    var jm := j % count;
    var jq := j / count;
    assert j == jq * count + jm;
    assert current + count - 1 - jm == (jq + 1 - q) * count + (count - 1 - t) by {
      assert (jq + 1 - q) * count == jq * count + count - q * count;
    }
    ModUnique(current + count - 1 - jm, count, jq + 1 - q, count - 1 - t);
  }

  /** `focus_stack`: the first client visible on the current workspace in
      the cyclic walk from the focused one; no visible client is passed over. */
  function FocusStackTarget(b: Backend, dir: Signals.Dir): (r: Option<nat>)
    requires b.currentClient.Some? && b.currentMonitor < |b.monitors|
    ensures r.Some? <==> |b.clients| > 0 && SomeVisible(b)
    ensures r.Some? ==>
      r.value < |b.clients| && Visible(b.clients[r.value], b.currentMonitor, b.monitors[b.currentMonitor].currentWorkspace)
    ensures r.Some? ==>
      var skip := Skip(dir, |b.clients|, b.currentClient.value);
      exists j :: 0 <= j < |b.clients| && r.value == Visit(dir, |b.clients|, skip, j)
        && forall t :: 0 <= t < j ==>
             !Visible(b.clients[Visit(dir, |b.clients|, skip, t)], b.currentMonitor, b.monitors[b.currentMonitor].currentWorkspace)
  {
    if |b.clients| == 0 then None
    else
      var ws := b.monitors[b.currentMonitor].currentWorkspace;
      var skip := Skip(dir, |b.clients|, b.currentClient.value);
      var step := FirstVisibleStep(b.clients, b.currentMonitor, ws, dir, skip, 0);
      if step.Some? then Some(Visit(dir, |b.clients|, skip, step.value))
      else
        assert !SomeVisible(b) by {
          forall i | 0 <= i < |b.clients|
            ensures !Visible(b.clients[i], b.currentMonitor, ws)
          {
            VisitCovers(dir, |b.clients|, skip, i);
          }
        }
        None
  }

  /** `focus_stack`: with a focused client, focuses the target of the
      cyclic search and warps the pointer to its centre; without a focused
      client, or with no client at all, nothing happens. The current monitor
      out of range panics. Only defined when the search ends. */
  function FocusStack(b: Backend, dir: Signals.Dir): (r: Result<Backend>)
    requires FocusStackTerminates(b)
    ensures b.currentClient.None? ==> r == Ok(b)
    ensures r.Err? <==> b.currentClient.Some? && b.currentMonitor >= |b.monitors|
    ensures r.Err? ==> r.error == OutOfBounds
    ensures r.Ok? && b.currentClient.Some? && |b.clients| == 0 ==> r == Ok(b)
    ensures r.Ok? && b.currentClient.Some? && |b.clients| > 0 ==>
      var t := FocusStackTarget(b, dir).value;
      var g := b.clients[t].geometry;
      && r.value == b.(currentClient := Some(t), display := r.value.display)
      && r.value.display == b.display.(log := b.display.log
           + [Focus(t), WarpPointer(b.clients[t].window, Half(g.width), Half(g.height))])
  {
    match b.currentClient
    case None => Ok(b)
    case Some(_) =>
      if b.currentMonitor >= |b.monitors| then Err(OutOfBounds)
      else
        match FocusStackTarget(b, dir)
        case None => Ok(b)
        case Some(t) =>
          var g := b.clients[t].geometry;
          var b1 := Log(b.(currentClient := Some(t)), Focus(t));
          Ok(Log(b1, WarpPointer(b.clients[t].window, Half(g.width), Half(g.height))))
  }

  /** With a focused client and clients on the list but none visible, the
      search never ends: every step of the infinite walk meets an invisible
      client, so `FocusStack` is not defined there. */
  lemma FocusStackDiverges(b: Backend, dir: Signals.Dir)
    requires b.currentClient.Some? && b.currentMonitor < |b.monitors| && |b.clients| > 0
    requires !SomeVisible(b)
    ensures !FocusStackTerminates(b)
    ensures forall j: nat :: !Visible(b.clients[Visit(dir, |b.clients|, Skip(dir, |b.clients|, b.currentClient.value), j)],
      b.currentMonitor, b.monitors[b.currentMonitor].currentWorkspace)
  {
  }

  // ------------------------------------------------------------ dispatch

  /** A FocusStack signal on top of the stack is one the search can finish. */
  predicate SignalTerminates(b: Backend)
  {
    |b.signals| > 0 && b.signals[|b.signals| - 1].FocusStack? ==> FocusStackTerminates(b)
  }

  /** Runs one popped signal; true when it was Quit. `focused` is the focus
      `focus_current_monitor` leaves when the signal switches monitors. */
  function Dispatch(b: Backend, s: Signals.Signal, focused: Option<nat>): (r: Result<(Backend, bool)>)
    requires s.FocusStack? ==> FocusStackTerminates(b)
    ensures r.Ok? ==> (r.value.1 <==> s.Quit?)
    ensures r.Ok? ==> r.value.0.signals == b.signals
  {
    match s
    case Quit => Ok((Quit(b), true))
    case KillClient => Ok((KillFocused(b), false))
    case ToggleFloating =>
      if b.currentClient.Some? then
        var b1 :- ToggleFloating(b, b.currentClient.value);
        Ok((b1, false))
      else Ok((b, false))
    case SetLayout(i) =>
      var b1 :- ResetLayout(b, i);
      Ok((b1, false))
    case ChangeWorkspace(w) =>
      var b1 :- ChangeWorkspace(b, w);
      Ok((b1, false))
    case MoveToWorkspace(w) =>
      var b1 :- MoveToWorkspace(b, w);
      Ok((b1, false))
    case FocusMon(d) =>
      var b1 :- FocusMonitor(b, d, focused);
      Ok((b1, false))
    case FocusStack(d) =>
      var b1 :- FocusStack(b, d);
      Ok((b1, false))
  }

  /** `handle_signal`: pops at most one signal, the most recently pushed,
      acts on it, and reports whether it was Quit. With an empty stack
      nothing happens. `focused` is handed to `Dispatch`. */
  function HandleSignal(b: Backend, focused: Option<nat>): (r: Result<(Backend, bool)>)
    requires SignalTerminates(b)
    ensures |b.signals| == 0 ==> r == Ok((b, false))
    ensures r.Ok? && |b.signals| > 0 ==> r.value.0.signals == b.signals[..|b.signals| - 1]
    ensures r.Ok? ==> (r.value.1 <==> |b.signals| > 0 && b.signals[|b.signals| - 1].Quit?)
  {
    var (top, rest) := Signals.Pop(b.signals);
    match top
    case None => Ok((b, false))
    case Some(s) => Dispatch(b.(signals := rest), s, focused)
  }

  /** A signal pushed by a key binding is the one the next `handle_signal`
      acts on: pushing Quit makes it report true and leaves the stack as it
      was before the push. */
  lemma PushedQuitIsHandled(b: Backend, focused: Option<nat>)
    ensures var pushed := b.(signals := Signals.Push(b.signals, Signals.SignalArg(Signals.Quit)));
      && HandleSignal(pushed, focused) == Ok((Quit(b), true))
  {
    Signals.PopAfterPush(b.signals, Signals.Quit);
  }
}
