/** The two layouts: pure maps from a monitor, a workspace, the monitor's
    rectangle and the whole client list to one geometry per client. */
module Layouts {
  import opened MachineInt
  import opened Errors
  import opened Clients
  import opened Monitors

  /** `is_arrangeable`: the eligibility test meant for layouts. */
  predicate IsArrangeable(c: Client, monitor: nat, workspace: nat)
    ensures IsArrangeable(c, monitor, workspace) ==> OnWorkspace(c, monitor, workspace)
    ensures OnWorkspace(c, monitor, workspace) ==>
      (IsArrangeable(c, monitor, workspace) <==> !c.fullscreen && !c.floating)
  {
    !c.fullscreen && !c.floating && c.monitor == monitor && c.workspace == workspace
  }

  /** The test `tile` and `float` actually apply: monitor and workspace only. */
  predicate OnWorkspace(c: Client, monitor: nat, workspace: nat)
  {
    c.monitor == monitor && c.workspace == workspace
  }

  lemma ArrangeableExcludesFullscreenAndFloating(c: Client, monitor: nat, workspace: nat)
    ensures c.fullscreen ==> !IsArrangeable(c, monitor, workspace)
    ensures c.floating ==> !IsArrangeable(c, monitor, workspace)
    ensures IsArrangeable(c, monitor, workspace) ==> OnWorkspace(c, monitor, workspace)
  {
  }

  /** The converse fails: a full-screen client on the workspace is matched by
      the layouts but is not arrangeable. */
  lemma OnWorkspaceDoesNotImplyArrangeable(g: WindowGeometry)
    ensures var c := NewClient(g, 0, 0).(fullscreen := true);
      OnWorkspace(c, 0, 0) && !IsArrangeable(c, 0, 0)
  {
  }

  /** Indices of the clients on the workspace, ascending (the `stack_indices`
      of `tile`). */
  function Matches(cs: seq<Client>, monitor: nat, workspace: nat): (r: seq<nat>)
    ensures |r| <= |cs|
    ensures forall k :: 0 <= k < |r| ==> r[k] < |cs| && OnWorkspace(cs[r[k]], monitor, workspace)
    decreases |cs|
  {
    if |cs| == 0 then []
    else
      var rest := Matches(cs[..|cs| - 1], monitor, workspace);
      rest + (if OnWorkspace(cs[|cs| - 1], monitor, workspace) then [|cs| - 1] else [])
  }

  /** The matches are ascending, so each index appears once. */
  lemma {:induction false} MatchesAscending(cs: seq<Client>, monitor: nat, workspace: nat)
    ensures forall a, b :: 0 <= a < b < |Matches(cs, monitor, workspace)| ==>
      Matches(cs, monitor, workspace)[a] < Matches(cs, monitor, workspace)[b]
    decreases |cs|
  {
    if |cs| > 0 {
      var init := cs[..|cs| - 1];
      MatchesAscending(init, monitor, workspace);
      var rest := Matches(init, monitor, workspace);
      var r := Matches(cs, monitor, workspace);
      assert r == rest + (if OnWorkspace(cs[|cs| - 1], monitor, workspace) then [|cs| - 1] else []);
      forall a, b | 0 <= a < b < |r|
        ensures r[a] < r[b]
      {
        if b < |rest| {
          assert r[a] == rest[a] && r[b] == rest[b];
          assert rest[a] < rest[b];
        } else {
          assert r[b] == |cs| - 1;
          assert r[a] == rest[a] < |init|;
        }
      }
    }
  }

  /** Every client on the workspace is among the matches. */
  lemma {:induction false} MatchesComplete(cs: seq<Client>, monitor: nat, workspace: nat)
    ensures forall j :: 0 <= j < |cs| && OnWorkspace(cs[j], monitor, workspace) ==> j in Matches(cs, monitor, workspace)
    decreases |cs|
  {
    if |cs| > 0 {
      var init := cs[..|cs| - 1];
      MatchesComplete(init, monitor, workspace);
      assert forall j :: 0 <= j < |init| ==> init[j] == cs[j];
    }
  }

  /** How many clients before index i are on the workspace. */
  function Rank(cs: seq<Client>, i: nat, monitor: nat, workspace: nat): nat
    requires i <= |cs|
  {
    |Matches(cs[..i], monitor, workspace)|
  }

  /** The matches of a prefix are a prefix of the matches. */
  lemma {:induction false} MatchesOfPrefix(cs: seq<Client>, i: nat, monitor: nat, workspace: nat)
    requires i <= |cs|
    ensures Rank(cs, i, monitor, workspace) <= |Matches(cs, monitor, workspace)|
    ensures Matches(cs[..i], monitor, workspace) == Matches(cs, monitor, workspace)[..Rank(cs, i, monitor, workspace)]
    decreases |cs|
  {
    if i < |cs| {
      var init := cs[..|cs| - 1];
      assert init[..i] == cs[..i];
      MatchesOfPrefix(init, i, monitor, workspace);
    } else {
      assert cs[..i] == cs;
    }
  }

  /** A client on the workspace is the Rank-th match. */
  lemma MatchAtRank(cs: seq<Client>, i: nat, monitor: nat, workspace: nat)
    requires i < |cs| && OnWorkspace(cs[i], monitor, workspace)
    ensures Rank(cs, i, monitor, workspace) < |Matches(cs, monitor, workspace)|
    ensures Matches(cs, monitor, workspace)[Rank(cs, i, monitor, workspace)] == i
  {
    var pre := cs[..i + 1];
    assert pre[..i] == cs[..i];
    assert Matches(pre, monitor, workspace) == Matches(cs[..i], monitor, workspace) + [i];
    MatchesOfPrefix(cs, i + 1, monitor, workspace);
  }

  /** The k-th match has rank k. */
  lemma RankOfMatch(cs: seq<Client>, k: nat, monitor: nat, workspace: nat)
    requires k < |Matches(cs, monitor, workspace)|
    ensures Rank(cs, Matches(cs, monitor, workspace)[k], monitor, workspace) == k
  {
    var m := Matches(cs, monitor, workspace);
    var i := m[k];
    MatchAtRank(cs, i, monitor, workspace);
    MatchesAscending(cs, monitor, workspace);
  }

  /** Two client lists that agree on who is on the workspace have the same
      matches. */
  lemma {:induction false} MatchesAgree(a: seq<Client>, b: seq<Client>, monitor: nat, workspace: nat)
    requires |a| == |b|
    requires forall i :: 0 <= i < |a| ==> (OnWorkspace(a[i], monitor, workspace) <==> OnWorkspace(b[i], monitor, workspace))
    ensures Matches(a, monitor, workspace) == Matches(b, monitor, workspace)
    decreases |a|
  {
    if |a| > 0 {
      MatchesAgree(a[..|a| - 1], b[..|b| - 1], monitor, workspace);
    }
  }

  /** The geometries the layouts start from (`clients.iter().map(get_geometry)`). */
  function Geometries(cs: seq<Client>): (r: seq<WindowGeometry>)
    ensures |r| == |cs| && forall i :: 0 <= i < |cs| ==> r[i] == cs[i].geometry
  {
    seq(|cs|, i requires 0 <= i < |cs| => cs[i].geometry)
  }

  /** The clients with a layout's output written back as their geometry. */
  function WithGeometries(cs: seq<Client>, gs: seq<WindowGeometry>): (r: seq<Client>)
    requires |gs| == |cs|
    ensures |r| == |cs| && forall i :: 0 <= i < |cs| ==> r[i] == cs[i].(geometry := gs[i])
  {
    seq(|cs|, i requires 0 <= i < |cs| => cs[i].(geometry := gs[i]))
  }

  lemma MatchesWithGeometries(cs: seq<Client>, gs: seq<WindowGeometry>, monitor: nat, workspace: nat)
    requires |gs| == |cs|
    ensures Matches(WithGeometries(cs, gs), monitor, workspace) == Matches(cs, monitor, workspace)
    ensures forall i :: 0 <= i <= |cs| ==> Rank(WithGeometries(cs, gs), i, monitor, workspace) == Rank(cs, i, monitor, workspace)
  {
    var ws := WithGeometries(cs, gs);
    MatchesAgree(ws, cs, monitor, workspace);
    forall i | 0 <= i <= |cs|
      ensures Rank(ws, i, monitor, workspace) == Rank(cs, i, monitor, workspace)
    {
      MatchesAgree(ws[..i], cs[..i], monitor, workspace);
    }
  }

  // ---------------------------------------------------------------- tile

  /** The place `tile` gives the match of rank k out of n: the last match is
      the main window on the left, the others stack on the right. Sizes go
      through the same u32 and i32 casts as the source. */
  function TilePlace(g: WindowGeometry, mg: MonitorGeometry, n: nat, k: nat): WindowGeometry
  {
    var width := AsU32(mg.width);
    var height := AsU32(mg.height);
    if k + 1 >= n then
      g.(x := mg.x, y := mg.y, width := AsI32(if n > 1 then width / 2 else width), height := AsI32(height))
    else
      StackPlace(g, mg, width / 2, height / (n - 1), k)
  }

  /** Slot k of the stack column starting at middleX, each slot stackHeight tall. */
  function StackPlace(g: WindowGeometry, mg: MonitorGeometry, middleX: int, stackHeight: int, k: nat): WindowGeometry
  {
    g.(x := AsI32(mg.x + AsI32(middleX)),
       y := AsI32(mg.y + AsI32(AsI32(k) * AsI32(stackHeight))),
       width := AsI32(middleX),
       height := AsI32(stackHeight))
  }

  /** `tile`: one geometry per client, in client order; clients off the
      workspace keep theirs; border and hints are never touched. */
  function Tile(monitor: nat, workspace: nat, mg: MonitorGeometry, cs: seq<Client>): (r: seq<WindowGeometry>)
    ensures |r| == |cs|
    ensures forall i :: 0 <= i < |cs| && !OnWorkspace(cs[i], monitor, workspace) ==> r[i] == cs[i].geometry
    ensures forall i :: 0 <= i < |cs| ==> r[i].borderWidth == cs[i].geometry.borderWidth && r[i].hints == cs[i].geometry.hints
  {
    var n := |Matches(cs, monitor, workspace)|;
    seq(|cs|, i requires 0 <= i < |cs| =>
      if OnWorkspace(cs[i], monitor, workspace) then TilePlace(cs[i].geometry, mg, n, Rank(cs, i, monitor, workspace))
      else cs[i].geometry)
  }

  /** The k-th match is placed at rank k. */
  lemma TileAtMatch(monitor: nat, workspace: nat, mg: MonitorGeometry, cs: seq<Client>, k: nat)
    requires k < |Matches(cs, monitor, workspace)|
    ensures var m := Matches(cs, monitor, workspace);
      Tile(monitor, workspace, mg, cs)[m[k]] == TilePlace(cs[m[k]].geometry, mg, |m|, k)
  {
    RankOfMatch(cs, k, monitor, workspace);
  }

  /** A geometry list that agrees with `tile` on every match and keeps the
      other clients' geometries is the result of `tile`. */
  lemma TileFromMatches(monitor: nat, workspace: nat, mg: MonitorGeometry, cs: seq<Client>, r: seq<WindowGeometry>)
    requires |r| == |cs|
    requires forall t :: 0 <= t < |Matches(cs, monitor, workspace)| ==>
      r[Matches(cs, monitor, workspace)[t]] == Tile(monitor, workspace, mg, cs)[Matches(cs, monitor, workspace)[t]]
    requires forall j :: 0 <= j < |cs| && !OnWorkspace(cs[j], monitor, workspace) ==> r[j] == cs[j].geometry
    ensures r == Tile(monitor, workspace, mg, cs)
  {
    var m := Matches(cs, monitor, workspace);
    var target := Tile(monitor, workspace, mg, cs);
    MatchesComplete(cs, monitor, workspace);
    forall j | 0 <= j < |cs|
      ensures r[j] == target[j]
    {
      if OnWorkspace(cs[j], monitor, workspace) {
        var t :| 0 <= t < |m| && m[t] == j;
      }
    }
  }

  /** With no client on the workspace, `tile` returns the input geometries. */
  lemma TileNoMatch(monitor: nat, workspace: nat, mg: MonitorGeometry, cs: seq<Client>)
    requires |Matches(cs, monitor, workspace)| == 0
    ensures Tile(monitor, workspace, mg, cs) == Geometries(cs)
  {
    var r := Tile(monitor, workspace, mg, cs);
    MatchesComplete(cs, monitor, workspace);
    assert forall i :: 0 <= i < |cs| ==> r[i] == cs[i].geometry;
  }

  /** A lone client on the workspace gets the whole monitor rectangle. */
  lemma TileSingle(monitor: nat, workspace: nat, mg: MonitorGeometry, cs: seq<Client>)
    requires mg.width >= 0 && mg.height >= 0
    requires |Matches(cs, monitor, workspace)| == 1
    ensures var i := Matches(cs, monitor, workspace)[0]; var g := Tile(monitor, workspace, mg, cs)[i];
      g.x == mg.x && g.y == mg.y && g.width == mg.width && g.height == mg.height
  {
    var i := Matches(cs, monitor, workspace)[0];
    RankOfMatch(cs, 0, monitor, workspace);
    assert Tile(monitor, workspace, mg, cs)[i] == TilePlace(cs[i].geometry, mg, 1, 0);
    TilePlaceMain(cs[i].geometry, mg, 1);
  }

  /** The main window's place: the monitor's origin and height, and half its
      width when there is a stack (all of it otherwise). */
  lemma TilePlaceMain(g: WindowGeometry, mg: MonitorGeometry, n: nat)
    requires mg.width >= 0 && mg.height >= 0 && n >= 1
    ensures var p := TilePlace(g, mg, n, n - 1);
      p.x == mg.x && p.y == mg.y && p.height == mg.height
      && p.width == (if n > 1 then mg.width / 2 else mg.width)
      && p == g.(x := p.x, y := p.y, width := p.width, height := p.height)
  {
  }

  /** k stacked windows of height q fit above the bottom edge. */
  lemma StackFits(height: nat, n: nat, k: nat)
    requires n >= 2 && k + 1 < n
    ensures k * (height / (n - 1)) + height / (n - 1) <= height
  {
    var q := height / (n - 1);
    assert (n - 1) * q <= height;
    assert (k + 1) * q <= (n - 1) * q by {
      MulMonotone(k + 1, n - 1, q);
    }
    assert (k + 1) * q == k * q + q;
  }

  lemma MulMonotone(a: nat, b: nat, q: nat)
    requires a <= b
    ensures a * q <= b * q
  {
  }

  /** A stacked window's place: the right half, the k-th slot of height
      h / (n - 1), ending above the monitor's bottom edge. */
  lemma TilePlaceStack(g: WindowGeometry, mg: MonitorGeometry, n: nat, k: nat)
    requires mg.width >= 0 && mg.height >= 0 && k + 1 < n
    ensures var p := TilePlace(g, mg, n, k); var q := mg.height / (n - 1);
      && p.x == mg.x + mg.width / 2 && p.width == mg.width / 2
      && p.y == mg.y + k * q && p.height == q
      && p.y + p.height <= mg.y + mg.height
  {
    var q := mg.height / (n - 1);
    DivAtMost(mg.height, n - 1);
    DivAtMost(mg.width, 2);
    StackFits(mg.height, n, k);
    StackPlaceFits(g, mg, mg.width / 2, q, k);
  }

  lemma StackPlaceFits(g: WindowGeometry, mg: MonitorGeometry, half: nat, q: nat, k: nat)
    requires mg.height >= 0 && half < 0x8000 && k * q + q <= mg.height
    ensures var p := StackPlace(g, mg, half, q, k);
      p.x == mg.x + half && p.width == half && p.y == mg.y + k * q && p.height == q
  {
    MulMonotone(0, k, q);
    var offset := k * q;
    assert 0 <= offset && q <= mg.height;
    SlotOffset(k, q, mg.height);
    assert AsI32(half) == half && AsI32(q) == q;
    assert AsI32(mg.y + offset) == mg.y + offset;
  }

  /** The slot offset `k as i32 * stack_height as i32` does not wrap. */
  lemma StackOffset(height: nat, n: nat, k: nat)
    requires height < 0x8000 && n >= 2 && k + 1 < n
    ensures var q := height / (n - 1); AsI32(AsI32(k) * AsI32(q)) == k * q
  {
    var q := height / (n - 1);
    DivAtMost(height, n - 1);
    StackFits(height, n, k);
    SlotOffset(k, q, height);
  }

  lemma SlotOffset(k: nat, q: nat, height: nat)
    requires k * q + q <= height < 0x8000
    ensures AsI32(AsI32(k) * AsI32(q)) == k * q
  {
    if q == 0 {
      assert AsI32(q) == 0;
    } else {
      MulMonotone(1, q, k);
    }
  }

  lemma DivAtMost(a: nat, b: nat)
    requires b >= 1
    ensures a / b <= a
  {
  }

  /** With n >= 2 matches the last one, at rank `last` = n - 1, is the main
      window: the left half of the monitor, full height. */
  lemma TileMain(monitor: nat, workspace: nat, mg: MonitorGeometry, cs: seq<Client>, last: nat)
    requires mg.width >= 0 && mg.height >= 0
    requires last >= 1 && last + 1 == |Matches(cs, monitor, workspace)|
    ensures var i := Matches(cs, monitor, workspace)[last];
      Tile(monitor, workspace, mg, cs)[i] == cs[i].geometry.(x := mg.x, y := mg.y, width := mg.width / 2, height := mg.height)
  {
    var m := Matches(cs, monitor, workspace);
    TileAtMatch(monitor, workspace, mg, cs, last);
    MainBesideStack(cs[m[last]].geometry, mg, |m|);
  }

  /** With a stack beside it, the main window's place is the left half. */
  lemma MainBesideStack(g: WindowGeometry, mg: MonitorGeometry, n: nat)
    requires mg.width >= 0 && mg.height >= 0 && n >= 2
    ensures TilePlace(g, mg, n, n - 1) == g.(x := mg.x, y := mg.y, width := mg.width / 2, height := mg.height)
  {
    TilePlaceMain(g, mg, n);
  }

  /** With n >= 2 matches, the k-th earlier match (k from 0) sits in the right
      half at height k * (h / (n - 1)), one (n - 1)-th of the height tall,
      and ends above the monitor's bottom edge. */
  lemma TileStack(monitor: nat, workspace: nat, mg: MonitorGeometry, cs: seq<Client>, k: nat)
    requires mg.width >= 0 && mg.height >= 0
    requires k + 1 < |Matches(cs, monitor, workspace)|
    ensures var n := |Matches(cs, monitor, workspace)|;
      var g := Tile(monitor, workspace, mg, cs)[Matches(cs, monitor, workspace)[k]];
      var q := mg.height / (n - 1);
      && g.x == mg.x + mg.width / 2 && g.width == mg.width / 2
      && g.y == mg.y + k * q && g.height == q
      && g.y + g.height <= mg.y + mg.height
  {
    var m := Matches(cs, monitor, workspace);
    TileAtMatch(monitor, workspace, mg, cs, k);
    TilePlaceStack(cs[m[k]].geometry, mg, |m|, k);
  }

  /** `tile` ignores the full-screen and floating flags: setting them on any
      client leaves the result unchanged, and a client on the workspace that
      carries either flag, though not arrangeable, is still placed at its rank. */
  lemma TileIgnoresFlags(monitor: nat, workspace: nat, mg: MonitorGeometry, cs: seq<Client>, i: nat, fullscreen: bool, floating: bool)
    requires i < |cs|
    ensures var flagged := cs[i := cs[i].(fullscreen := fullscreen, floating := floating)];
      Tile(monitor, workspace, mg, flagged) == Tile(monitor, workspace, mg, cs)
    ensures OnWorkspace(cs[i], monitor, workspace) && (cs[i].fullscreen || cs[i].floating) ==>
      !IsArrangeable(cs[i], monitor, workspace)
      && Tile(monitor, workspace, mg, cs)[i] == TilePlace(cs[i].geometry, mg, |Matches(cs, monitor, workspace)|, Rank(cs, i, monitor, workspace))
  {
    var flagged := cs[i := cs[i].(fullscreen := fullscreen, floating := floating)];
    assert forall k :: 0 <= k < |cs| ==>
      flagged[k].geometry == cs[k].geometry
      && (OnWorkspace(flagged[k], monitor, workspace) <==> OnWorkspace(cs[k], monitor, workspace));
    forall j | 0 <= j <= |cs|
      ensures Rank(flagged, j, monitor, workspace) == Rank(cs, j, monitor, workspace)
    {
      MatchesAgree(flagged[..j], cs[..j], monitor, workspace);
    }
    MatchesAgree(flagged, cs, monitor, workspace);
    var a := Tile(monitor, workspace, mg, flagged);
    var b := Tile(monitor, workspace, mg, cs);
    forall k | 0 <= k < |cs|
      ensures a[k] == b[k]
    {
    }
  }

  /** Tiling the result of tiling changes nothing: who is tiled depends only
      on monitor and workspace, and a tiled place depends only on the rank. */
  lemma TileIdempotent(monitor: nat, workspace: nat, mg: MonitorGeometry, cs: seq<Client>)
    ensures var r := Tile(monitor, workspace, mg, cs);
      Tile(monitor, workspace, mg, WithGeometries(cs, r)) == r
  {
    var r := Tile(monitor, workspace, mg, cs);
    var cs' := WithGeometries(cs, r);
    MatchesWithGeometries(cs, r, monitor, workspace);
    var r' := Tile(monitor, workspace, mg, cs');
    assert forall i :: 0 <= i < |cs| ==> r'[i] == r[i];
  }

  /** The first pass of `tile`: the indices of the clients on the workspace. */
  method CollectMatches(cs: seq<Client>, monitor: nat, workspace: nat) returns (indices: seq<nat>)
    ensures indices == Matches(cs, monitor, workspace)
  {
    indices := [];
    var i := 0;
    while i < |cs|
      invariant 0 <= i <= |cs|
      invariant indices == Matches(cs[..i], monitor, workspace)
    {
      assert cs[..i + 1][..i] == cs[..i];
      if OnWorkspace(cs[i], monitor, workspace) {
        indices := indices + [i];
      }
      i := i + 1;
    }
    assert cs[..|cs|] == cs;
  }

  /** Writing the place of match k leaves every other match as it was. */
  lemma UpdateAtMatch(all: seq<nat>, r: seq<WindowGeometry>, k: nat, r': seq<WindowGeometry>)
    requires k < |all| && all[k] < |r|
    requires forall a, b :: 0 <= a < b < |all| ==> all[a] < all[b]
    requires |r'| == |r| && forall j :: 0 <= j < |r| && j != all[k] ==> r'[j] == r[j]
    ensures forall t :: 0 <= t < |all| && t != k && all[t] < |r| ==> r'[all[t]] == r[all[t]]
  {
  }

  /** Slot t of the stack column is where `tile` puts every match but the last. */
  lemma StackPlacesAreTile(monitor: nat, workspace: nat, mg: MonitorGeometry, cs: seq<Client>, r: seq<WindowGeometry>)
    requires |r| == |cs| && |Matches(cs, monitor, workspace)| >= 2
    requires var m := Matches(cs, monitor, workspace);
      forall t :: 0 <= t < |m| - 1 ==>
        r[m[t]] == StackPlace(cs[m[t]].geometry, mg, AsU32(mg.width) / 2, AsU32(mg.height) / (|m| - 1), t)
    ensures var m := Matches(cs, monitor, workspace);
      forall t :: 0 <= t < |m| - 1 ==> r[m[t]] == Tile(monitor, workspace, mg, cs)[m[t]]
  {
    var m := Matches(cs, monitor, workspace);
    forall t | 0 <= t < |m| - 1
      ensures r[m[t]] == Tile(monitor, workspace, mg, cs)[m[t]]
    {
      TileAtMatch(monitor, workspace, mg, cs, t);
    }
  }

  /** The stack loop's state after k placements: the matches before rank k
      sit in their slots, the later ones and the main window are untouched,
      and clients off the workspace keep what they had. */
  ghost predicate StackPlaced(monitor: nat, workspace: nat, mg: MonitorGeometry, cs: seq<Client>, all: seq<nat>,
                              r0: seq<WindowGeometry>, r: seq<WindowGeometry>, middleX: int, stackHeight: int, k: nat)
  {
    && all == Matches(cs, monitor, workspace) && |all| >= 2 && k <= |all| - 1
    && |r0| == |cs| && |r| == |cs|
    && r[all[|all| - 1]] == r0[all[|all| - 1]]
    && (forall t :: 0 <= t < k ==> r[all[t]] == StackPlace(cs[all[t]].geometry, mg, middleX, stackHeight, t))
    && (forall t :: k <= t < |all| - 1 ==> r[all[t]] == cs[all[t]].geometry)
    && (forall j :: 0 <= j < |cs| && !OnWorkspace(cs[j], monitor, workspace) ==> r[j] == r0[j])
  }

  /** One turn of the stack loop places match k and keeps the rest. */
  lemma StackStep(monitor: nat, workspace: nat, mg: MonitorGeometry, cs: seq<Client>, all: seq<nat>,
                  r0: seq<WindowGeometry>, r: seq<WindowGeometry>, middleX: int, stackHeight: int, k: nat, r': seq<WindowGeometry>)
    requires StackPlaced(monitor, workspace, mg, cs, all, r0, r, middleX, stackHeight, k) && k < |all| - 1
    requires r' == r[all[k] := StackPlace(r[all[k]], mg, middleX, stackHeight, k)]
    ensures StackPlaced(monitor, workspace, mg, cs, all, r0, r', middleX, stackHeight, k + 1)
  {
    MatchesAscending(cs, monitor, workspace);
    UpdateAtMatch(all, r, k, r');
  }

  /** The stack pass of `tile`: every match but the last, in order, takes
      slot k of the right-hand column. */
  method PlaceStack(monitor: nat, workspace: nat, mg: MonitorGeometry, cs: seq<Client>, r0: seq<WindowGeometry>) returns (r: seq<WindowGeometry>)
    requires |r0| == |cs| && |Matches(cs, monitor, workspace)| >= 2
    requires forall j :: 0 <= j < |cs| && j != Matches(cs, monitor, workspace)[|Matches(cs, monitor, workspace)| - 1] ==> r0[j] == cs[j].geometry
    ensures |r| == |cs|
    ensures forall t :: 0 <= t < |Matches(cs, monitor, workspace)| - 1 ==>
      r[Matches(cs, monitor, workspace)[t]] == Tile(monitor, workspace, mg, cs)[Matches(cs, monitor, workspace)[t]]
    ensures forall j :: 0 <= j < |cs| && (j == Matches(cs, monitor, workspace)[|Matches(cs, monitor, workspace)| - 1] || !OnWorkspace(cs[j], monitor, workspace)) ==> r[j] == r0[j]
  {
    var stackIndices := CollectMatches(cs, monitor, workspace);
    ghost var all := stackIndices;
    ghost var n := |all|;
    var middleX := AsU32(mg.width) / 2;
    var stackHeight := AsU32(mg.height) / (|stackIndices| - 1);
    MatchesAscending(cs, monitor, workspace);
    assert StackPlaced(monitor, workspace, mg, cs, all, r0, r0, middleX, stackHeight, 0);
    stackIndices := stackIndices[..|stackIndices| - 1];
    r := r0;
    var k := 0;
    while k < |stackIndices|
      invariant 0 <= k <= |stackIndices| == n - 1
      invariant stackIndices == all[..n - 1]
      invariant StackPlaced(monitor, workspace, mg, cs, all, r0, r, middleX, stackHeight, k)
    {
      var index := stackIndices[k];
      assert index == all[k];
      var r' := r[index := StackPlace(r[index], mg, middleX, stackHeight, k)];
      StackStep(monitor, workspace, mg, cs, all, r0, r, middleX, stackHeight, k, r');
      r := r';
      k := k + 1;
    }
    StackPlacesAreTile(monitor, workspace, mg, cs, r);
  }

  /** `tile` as the source computes it: collect the matching indices, copy the
      geometries, place the main window, then place the stack in order. */
  method TileArrange(monitor: nat, workspace: nat, mg: MonitorGeometry, cs: seq<Client>) returns (r: seq<WindowGeometry>)
    ensures r == Tile(monitor, workspace, mg, cs)
  {
    var stackIndices := CollectMatches(cs, monitor, workspace);
    r := Geometries(cs);
    if |stackIndices| == 0 {
      TileNoMatch(monitor, workspace, mg, cs);
      return;
    }
    var width := AsU32(mg.width);
    var height := AsU32(mg.height);
    var main := stackIndices[|stackIndices| - 1];
    TileAtMatch(monitor, workspace, mg, cs, |stackIndices| - 1);
    if |stackIndices| > 1 {
      r := r[main := r[main].(x := mg.x, y := mg.y, width := AsI32(width / 2), height := AsI32(height))];
      r := PlaceStack(monitor, workspace, mg, cs, r);
    } else {
      r := r[main := r[main].(x := mg.x, y := mg.y, width := AsI32(width), height := AsI32(height))];
    }
    TileFromMatches(monitor, workspace, mg, cs, r);
  }

  // ---------------------------------------------------------------- float

  /** The last client on the workspace, if any. */
  function LastMatch(cs: seq<Client>, monitor: nat, workspace: nat): (r: Option<nat>)
    ensures r.Some? ==> r.value < |cs| && OnWorkspace(cs[r.value], monitor, workspace)
    ensures r.Some? ==> forall j :: r.value < j < |cs| ==> !OnWorkspace(cs[j], monitor, workspace)
    ensures r.None? <==> forall j :: 0 <= j < |cs| ==> !OnWorkspace(cs[j], monitor, workspace)
    decreases |cs|
  {
    if |cs| == 0 then None
    else if OnWorkspace(cs[|cs| - 1], monitor, workspace) then Some(|cs| - 1)
    else
      var init := cs[..|cs| - 1];
      assert forall j :: 0 <= j < |init| ==> init[j] == cs[j];
      LastMatch(init, monitor, workspace)
  }

  /** The last client on the workspace is the last of the matches. */
  lemma {:induction false} LastMatchIsLastOfMatches(cs: seq<Client>, monitor: nat, workspace: nat)
    ensures var m := Matches(cs, monitor, workspace);
      LastMatch(cs, monitor, workspace) == if |m| == 0 then None else Some(m[|m| - 1])
    decreases |cs|
  {
    if |cs| > 0 && !OnWorkspace(cs[|cs| - 1], monitor, workspace) {
      LastMatchIsLastOfMatches(cs[..|cs| - 1], monitor, workspace);
    }
  }

  lemma LastMatchWithGeometries(cs: seq<Client>, gs: seq<WindowGeometry>, monitor: nat, workspace: nat)
    requires |gs| == |cs|
    ensures LastMatch(WithGeometries(cs, gs), monitor, workspace) == LastMatch(cs, monitor, workspace)
  {
    MatchesWithGeometries(cs, gs, monitor, workspace);
    LastMatchIsLastOfMatches(cs, monitor, workspace);
    LastMatchIsLastOfMatches(WithGeometries(cs, gs), monitor, workspace);
  }

  /** `float`: only the last client on the workspace moves, to the monitor's
      origin, keeping its size and border. */
  function Float(monitor: nat, workspace: nat, mg: MonitorGeometry, cs: seq<Client>): (r: seq<WindowGeometry>)
    ensures |r| == |cs|
    ensures forall i :: 0 <= i < |cs| && LastMatch(cs, monitor, workspace) != Some(i) ==> r[i] == cs[i].geometry
    ensures forall i :: 0 <= i < |cs| && LastMatch(cs, monitor, workspace) == Some(i) ==>
      r[i] == cs[i].geometry.(x := mg.x, y := mg.y)
  {
    var last := LastMatch(cs, monitor, workspace);
    seq(|cs|, i requires 0 <= i < |cs| =>
      if last == Some(i) then cs[i].geometry.(x := mg.x, y := mg.y) else cs[i].geometry)
  }

  /** With no client on the workspace, `float` returns the input geometries. */
  lemma FloatNoMatch(monitor: nat, workspace: nat, mg: MonitorGeometry, cs: seq<Client>)
    requires forall j :: 0 <= j < |cs| ==> !OnWorkspace(cs[j], monitor, workspace)
    ensures Float(monitor, workspace, mg, cs) == Geometries(cs)
  {
  }

  /** Floating the result of floating changes nothing. */
  lemma FloatIdempotent(monitor: nat, workspace: nat, mg: MonitorGeometry, cs: seq<Client>)
    ensures var r := Float(monitor, workspace, mg, cs);
      Float(monitor, workspace, mg, WithGeometries(cs, r)) == r
  {
    var r := Float(monitor, workspace, mg, cs);
    var cs' := WithGeometries(cs, r);
    LastMatchWithGeometries(cs, r, monitor, workspace);
    var r' := Float(monitor, workspace, mg, cs');
    assert forall i :: 0 <= i < |cs| ==> r'[i] == r[i];
  }

  /** `float` as the source computes it: find the last match in one pass,
      copy the geometries, move that one entry. */
  method FloatArrange(monitor: nat, workspace: nat, mg: MonitorGeometry, cs: seq<Client>) returns (r: seq<WindowGeometry>)
    ensures r == Float(monitor, workspace, mg, cs)
  {
    var last: Option<nat> := None;
    var i := 0;
    while i < |cs|
      invariant 0 <= i <= |cs|
      invariant last == LastMatch(cs[..i], monitor, workspace)
    {
      assert cs[..i + 1][..i] == cs[..i];
      if OnWorkspace(cs[i], monitor, workspace) {
        last := Some(i);
      }
      i := i + 1;
    }
    assert cs[..|cs|] == cs;
    r := Geometries(cs);
    if last.Some? && last.value < |r| {
      r := r[last.value := r[last.value].(x := mg.x, y := mg.y)];
    }
  }

  /** The `Layout` function type: whichever layout a monitor holds, it
      returns one geometry per client and leaves clients off the workspace
      as they are. */
  function Arrange(layout: Layout, monitor: nat, workspace: nat, mg: MonitorGeometry, cs: seq<Client>): (r: seq<WindowGeometry>)
    ensures |r| == |cs|
    ensures forall i :: 0 <= i < |cs| && !OnWorkspace(cs[i], monitor, workspace) ==> r[i] == cs[i].geometry
  {
    match layout
    case TileLayout => Tile(monitor, workspace, mg, cs)
    case FloatLayout => Float(monitor, workspace, mg, cs)
  }
}
