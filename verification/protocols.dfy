/** Talking to clients through the ICCCM: the WM_DELETE_WINDOW request of
    section 4.2.8.1 (advertised in WM_PROTOCOLS, section 4.1.2.7), and the
    forced kill used when a client does not advertise it. */
module Protocols {
  import opened MachineInt
  import opened Xlib

  /** The interned atoms the backends compare against. */
  datatype Atoms = Atoms(
    wmProtocols: Atom,
    wmDelete: Atom,
    netWmState: Atom,
    netWmStateFullscreen: Atom,
    netWmWindowType: Atom)

  /** The window's WM_PROTOCOLS property is set and lists `atom`. */
  predicate Advertises(d: Display, w: Window, atom: Atom)
  {
    w in d.protocols && atom in d.protocols[w]
  }

  /** `send_xevent_atom`: a WM_PROTOCOLS client message carrying `atom` is
      sent exactly when the window advertises `atom`; the result says whether
      it was. */
  function SendXEventAtom(d: Display, atoms: Atoms, w: Window, atom: Atom): (r: (Display, bool))
    ensures r.1 <==> Advertises(d, w, atom)
    ensures r.1 ==> r.0 == d.(log := d.log + [SendClientMessage(w, atoms.wmProtocols, atom, CURRENT_TIME)])
    ensures !r.1 ==> r.0 == d
  {
    var advertised := Advertises(d, w, atom);
    if advertised then (Issue(d, SendClientMessage(w, atoms.wmProtocols, atom, CURRENT_TIME)), true)
    else (d, false)
  }

  /** The forced kill: with the server grabbed and errors ignored, destroy
      all of the client's resources, then restore the handler and release
      the server. */
  function ForceKillEffects(w: Window): (es: seq<Effect>)
    ensures |es| == 7 && es[3] == Xlib.KillClient(w)
    ensures es[0] == GrabServer && es[|es| - 1] == UngrabServer
    ensures es[1] == SetErrorHandler(DummyErrorHandler) && es[5] == SetErrorHandler(XErrorHandler)
    ensures forall i :: 0 <= i < |es| ==> !MovesOrResizes(es[i])
  {
    [GrabServer, SetErrorHandler(DummyErrorHandler), SetCloseDownModeDestroyAll,
     Xlib.KillClient(w), Sync, SetErrorHandler(XErrorHandler), UngrabServer]
  }

  /** The requests the two-tier kill of `w` adds to the log. */
  function KillWindow(d: Display, atoms: Atoms, w: Window): (r: Display)
    ensures |r.log| >= |d.log| && r.log[..|d.log|] == d.log
    ensures r.windows == d.windows && r.protocols == d.protocols
    ensures Advertises(d, w, atoms.wmDelete) ==>
      r.log[|d.log|..] == [SendClientMessage(w, atoms.wmProtocols, atoms.wmDelete, CURRENT_TIME)]
    ensures !Advertises(d, w, atoms.wmDelete) ==> r.log[|d.log|..] == ForceKillEffects(w)
  {
    var (d', sent) := SendXEventAtom(d, atoms, w, atoms.wmDelete);
    if sent then d' else IssueAll(d', ForceKillEffects(w))
  }

  /** Exactly one of the two tiers runs: the polite request goes out iff
      WM_DELETE_WINDOW is advertised, and XKillClient is issued iff it is not. */
  lemma KillIsTwoTier(d: Display, atoms: Atoms, w: Window)
    ensures var added := KillWindow(d, atoms, w).log[|d.log|..];
      && (SendClientMessage(w, atoms.wmProtocols, atoms.wmDelete, CURRENT_TIME) in added <==> Advertises(d, w, atoms.wmDelete))
      && (Xlib.KillClient(w) in added <==> !Advertises(d, w, atoms.wmDelete))
  {
    var added := KillWindow(d, atoms, w).log[|d.log|..];
    if Advertises(d, w, atoms.wmDelete) {
      assert added == [SendClientMessage(w, atoms.wmProtocols, atoms.wmDelete, CURRENT_TIME)];
    } else {
      assert added == ForceKillEffects(w);
      assert added[3] == Xlib.KillClient(w);
      assert forall i :: 0 <= i < |added| ==> !added[i].SendClientMessage?;
    }
  }
}
