/** Every enabled step keeps the tables in agreement.

    The proof goes entry by entry: what the checks of a step say about its own arguments, then
    each peer, overlay, query and client list on its own. */
module LifecycleSteps {
  import opened Basics
  import opened Lifecycle

  /** What the tables add to the checks of a step: the client it names owns what it touches, and a
      generation about to be installed was never claimed. */
  ghost predicate Known(w: World, ev: Event)
    requires KeysAgree(w)
  {
    match ev
    case Env(Inbound(peer, _)) => peer !in w.reg.retired && peer.id !in w.reg.active ==> peer !in w.reg.claimed
    case Claim(c, peer, _) => peer !in w.reg.claimed && Unowned(w.reg, peer.id)
    case Join(c, _, hex) => hex in w.reg.active && w.reg.owners[hex] == Some(c)
    case ArmPeer(c, hex) => hex in w.reg.active && w.reg.owners[hex] == Some(c)
    case Leave(c, ov) => ov in w.attached && w.attached[ov].client == c
    case ArmOverlay(c, ov) => ov in w.attached && w.attached[ov].client == c
    case Query(closure, _, _) => Get(w.reg.claimed, closure.peer) == Some(closure.client)
    case _ => true
  }

  lemma EnabledKnown(limits: Limits, w: World, ev: Event)
    requires Valid(limits, w) && Enabled(limits, w, ev)
    ensures Known(w, ev)
  {
    match ev
    case Claim(c, peer, _) => assert peer.id in w.reg.active ==> PeerSound(w, peer.id);
    case Join(c, _, hex) => assert ListSound(limits, w, c);
    case ArmPeer(c, hex) => assert ListSound(limits, w, c);
    case Leave(c, ov) => assert ListSound(limits, w, c);
    case ArmOverlay(c, ov) => assert ListSound(limits, w, c);
    case _ =>
  }

  lemma KeysKept(limits: Limits, w: World, ev: Event)
    requires KeysAgree(w) && Enabled(limits, w, ev)
    ensures KeysAgree(Apply(w, ev))
  {}

  lemma PeerInstalled(limits: Limits, w: World, peer: Peer, owner: Option<ClientId>, closed: bool, h: PeerHex)
    requires KeysAgree(w) && peer !in w.reg.retired && Unowned(w.reg, peer.id)
    requires owner.Some? ==> peer !in w.reg.claimed && owner.value in w.lists && Install(w.reg, peer, owner, closed).1 == Installed
    requires peer.id !in w.reg.active ==> peer !in w.reg.claimed
    requires h in w.reg.active ==> PeerSound(w, h)
    requires h in Install(w.reg, peer, owner, closed).0.active
    ensures
      var w' := w.(reg := Install(w.reg, peer, owner, closed).0);
      KeysAgree(w') && PeerSound(w', h)
  {}

  lemma PeerKeptByDetach(limits: Limits, w: World, ev: Event, h: PeerHex)
    requires ev.Detach? && KeysAgree(w) && KeysAgree(Apply(w, ev))
    requires h in w.reg.active ==> PeerSound(w, h)
    requires ev.hex in w.reg.active ==> PeerSound(w, ev.hex)
    requires h in Apply(w, ev).reg.active
    ensures PeerSound(Apply(w, ev), h)
  {}

  lemma PeerKeptByOthers(limits: Limits, w: World, ev: Event, h: PeerHex)
    requires !ev.Detach? && !ev.Claim? && !(ev.Env? && ev.e.Inbound?)
    requires KeysAgree(w) && Enabled(limits, w, ev) && Known(w, ev) && KeysAgree(Apply(w, ev))
    requires h in w.reg.active ==> PeerSound(w, h)
    requires h in Apply(w, ev).reg.active
    ensures PeerSound(Apply(w, ev), h)
  {}

  lemma PeerKept(limits: Limits, w: World, ev: Event, h: PeerHex)
    requires KeysAgree(w) && Enabled(limits, w, ev) && Known(w, ev) && KeysAgree(Apply(w, ev))
    requires h in w.reg.active ==> PeerSound(w, h)
    requires ev.Detach? && ev.hex in w.reg.active ==> PeerSound(w, ev.hex)
    requires h in Apply(w, ev).reg.active
    ensures PeerSound(Apply(w, ev), h)
  {
    match ev
    case Claim(c, peer, closed) => PeerInstalled(limits, w, peer, Some(c), closed, h);
    case Env(Inbound(peer, closed)) =>
      if peer !in w.reg.retired && peer.id !in w.reg.active {
        PeerInstalled(limits, w, peer, None, closed, h);
      }
    case Detach(_, _) => PeerKeptByDetach(limits, w, ev, h);
    case _ => PeerKeptByOthers(limits, w, ev, h);
  }

  lemma OverlayKeptByDetach(limits: Limits, w: World, ev: Event, ov: OverlayHex)
    requires ev.Detach? && KeysAgree(w) && KeysAgree(Apply(w, ev))
    requires ov in w.attached ==> OverlaySound(w, ov)
    requires ov in Apply(w, ev).attached
    ensures OverlaySound(Apply(w, ev), ov)
  {}

  lemma OverlayKeptByOverlays(limits: Limits, w: World, ev: Event, ov: OverlayHex)
    requires ev.Join? || ev.Leave? || ev.ArmOverlay?
    requires KeysAgree(w) && Enabled(limits, w, ev) && Known(w, ev) && KeysAgree(Apply(w, ev))
    requires ov in w.attached ==> OverlaySound(w, ov)
    requires ov in Apply(w, ev).attached
    ensures OverlaySound(Apply(w, ev), ov)
  {}

  lemma OverlayKeptByOthers(limits: Limits, w: World, ev: Event, ov: OverlayHex)
    requires !ev.Detach? && !ev.Join? && !ev.Leave? && !ev.ArmOverlay?
    requires KeysAgree(w) && Enabled(limits, w, ev) && Known(w, ev) && KeysAgree(Apply(w, ev))
    requires ov in w.attached ==> OverlaySound(w, ov)
    requires ov in Apply(w, ev).attached
    ensures OverlaySound(Apply(w, ev), ov)
  {}

  lemma OverlayKept(limits: Limits, w: World, ev: Event, ov: OverlayHex)
    requires KeysAgree(w) && Enabled(limits, w, ev) && Known(w, ev) && KeysAgree(Apply(w, ev))
    requires ov in w.attached ==> OverlaySound(w, ov)
    requires ov in Apply(w, ev).attached
    ensures OverlaySound(Apply(w, ev), ov)
  {
    hide KeysAgree, Enabled, Known, OverlaySound, Apply;
    match ev
    case Detach(_, _) => OverlayKeptByDetach(limits, w, ev, ov);
    case Join(_, _, _) => OverlayKeptByOverlays(limits, w, ev, ov);
    case Leave(_, _) => OverlayKeptByOverlays(limits, w, ev, ov);
    case ArmOverlay(_, _) => OverlayKeptByOverlays(limits, w, ev, ov);
    case _ => OverlayKeptByOthers(limits, w, ev, ov);
  }

  lemma QueryKept(limits: Limits, w: World, ev: Event, q: QueryId)
    requires KeysAgree(w) && Enabled(limits, w, ev) && Known(w, ev) && KeysAgree(Apply(w, ev))
    requires q in w.pending ==> QuerySound(w, q)
    requires ev.Query? && ev.closure.peer.id in w.reg.active ==> PeerSound(w, ev.closure.peer.id)
    requires q in Apply(w, ev).pending
    ensures QuerySound(Apply(w, ev), q)
  {}

  lemma HistoryKeptByArming(limits: Limits, w: World, ev: Event)
    requires ev.ArmPeer? || ev.ArmOverlay?
    requires KeysAgree(w) && Enabled(limits, w, ev) && Known(w, ev) && HistorySound(w)
    requires ev.ArmPeer? ==> PeerSound(w, ev.hex)
    requires ev.ArmOverlay? ==> PeerSound(w, w.peerOf[ev.overlay]) && OverlaySound(w, ev.overlay)
    ensures HistorySound(Apply(w, ev))
  {}

  lemma HistoryKeptByOthers(limits: Limits, w: World, ev: Event)
    requires !ev.ArmPeer? && !ev.ArmOverlay?
    requires KeysAgree(w) && Enabled(limits, w, ev) && Known(w, ev) && HistorySound(w)
    ensures HistorySound(Apply(w, ev))
  {}

  lemma HistoryKept(limits: Limits, w: World, ev: Event)
    requires KeysAgree(w) && Enabled(limits, w, ev) && Known(w, ev) && HistorySound(w)
    requires ev.ArmPeer? ==> PeerSound(w, ev.hex)
    requires ev.ArmOverlay? ==> PeerSound(w, w.peerOf[ev.overlay]) && OverlaySound(w, ev.overlay)
    ensures HistorySound(Apply(w, ev))
  {
    hide KeysAgree, HistorySound, PeerSound, OverlaySound, Apply;
    if ev.ArmPeer? || ev.ArmOverlay? {
      HistoryKeptByArming(limits, w, ev);
    } else {
      HistoryKeptByOthers(limits, w, ev);
    }
  }

  lemma ListKeptByDetach(limits: Limits, w: World, ev: Event, k: ClientId)
    requires ev.Detach?
    requires KeysAgree(w) && Enabled(limits, w, ev) && Known(w, ev)
    requires k in w.lists && ListSound(limits, w, k)
    requires forall ov :: ov in w.attached ==> OverlaySound(w, ov)
    ensures k in Apply(w, ev).lists && ListSound(limits, Apply(w, ev), k)
  {}

  lemma ListKeptByOverlays(limits: Limits, w: World, ev: Event, k: ClientId)
    requires ev.Join? || ev.Leave? || ev.ArmOverlay?
    requires KeysAgree(w) && Enabled(limits, w, ev) && Known(w, ev)
    requires k in w.lists && ListSound(limits, w, k)
    ensures k in Apply(w, ev).lists && ListSound(limits, Apply(w, ev), k)
  {}

  lemma ListKeptByClaim(limits: Limits, w: World, ev: Event, k: ClientId)
    requires ev.Claim?
    requires KeysAgree(w) && Enabled(limits, w, ev) && Known(w, ev)
    requires k in w.lists && ListSound(limits, w, k)
    ensures k in Apply(w, ev).lists && ListSound(limits, Apply(w, ev), k)
  {}

  lemma ListKeptByOthers(limits: Limits, w: World, ev: Event, k: ClientId)
    requires !ev.Join? && !ev.Leave? && !ev.ArmOverlay? && !ev.Detach? && !ev.Claim?
    requires KeysAgree(w) && Enabled(limits, w, ev) && Known(w, ev)
    requires k in w.lists && ListSound(limits, w, k)
    ensures k in Apply(w, ev).lists && ListSound(limits, Apply(w, ev), k)
  {}

  lemma ListKept(limits: Limits, w: World, ev: Event, k: ClientId)
    requires KeysAgree(w) && Enabled(limits, w, ev) && Known(w, ev)
    requires k in w.lists && ListSound(limits, w, k)
    requires forall ov :: ov in w.attached ==> OverlaySound(w, ov)
    ensures k in Apply(w, ev).lists && ListSound(limits, Apply(w, ev), k)
  {
    match ev
    case Claim(_, _, _) => ListKeptByClaim(limits, w, ev, k);
    case Detach(_, _) => ListKeptByDetach(limits, w, ev, k);
    case Join(_, _, _) => ListKeptByOverlays(limits, w, ev, k);
    case Leave(_, _) => ListKeptByOverlays(limits, w, ev, k);
    case ArmOverlay(_, _) => ListKeptByOverlays(limits, w, ev, k);
    case _ => ListKeptByOthers(limits, w, ev, k);
  }

  lemma PeersKept(limits: Limits, w: World, ev: Event)
    requires Valid(limits, w) && Enabled(limits, w, ev) && Known(w, ev) && KeysAgree(Apply(w, ev))
    ensures forall h :: h in Apply(w, ev).reg.active ==> PeerSound(Apply(w, ev), h)
  {
    forall h | h in Apply(w, ev).reg.active ensures PeerSound(Apply(w, ev), h) {
      PeerKept(limits, w, ev, h);
    }
  }

  lemma OverlaysKept(limits: Limits, w: World, ev: Event)
    requires Valid(limits, w) && Enabled(limits, w, ev) && Known(w, ev) && KeysAgree(Apply(w, ev))
    ensures forall ov :: ov in Apply(w, ev).attached ==> OverlaySound(Apply(w, ev), ov)
  {
    forall ov | ov in Apply(w, ev).attached ensures OverlaySound(Apply(w, ev), ov) {
      OverlayKept(limits, w, ev, ov);
    }
  }

  lemma QueriesKept(limits: Limits, w: World, ev: Event)
    requires Valid(limits, w) && Enabled(limits, w, ev) && Known(w, ev) && KeysAgree(Apply(w, ev))
    ensures forall q :: q in Apply(w, ev).pending ==> QuerySound(Apply(w, ev), q)
  {
    forall q | q in Apply(w, ev).pending ensures QuerySound(Apply(w, ev), q) {
      QueryKept(limits, w, ev, q);
    }
  }

  lemma ClientsFixed(w: World, ev: Event)
    ensures Apply(w, ev).lists.Keys == w.lists.Keys
  {}

  lemma ListsKept(limits: Limits, w: World, ev: Event)
    requires Valid(limits, w) && Enabled(limits, w, ev) && Known(w, ev)
    ensures forall k :: k in Apply(w, ev).lists ==> ListSound(limits, Apply(w, ev), k)
  {
    ClientsFixed(w, ev);
    forall k | k in Apply(w, ev).lists ensures ListSound(limits, Apply(w, ev), k) {
      ListKept(limits, w, ev, k);
    }
  }

  /** One step, whichever it is. */
  lemma StepKeepsValid(limits: Limits, w: World, ev: Event)
    requires Valid(limits, w) && Enabled(limits, w, ev)
    ensures Valid(limits, Apply(w, ev))
  {
    EnabledKnown(limits, w, ev);
    KeysKept(limits, w, ev);
    HistoryKept(limits, w, ev);
    PeersKept(limits, w, ev);
    OverlaysKept(limits, w, ev);
    QueriesKept(limits, w, ev);
    ListsKept(limits, w, ev);
  }
}
