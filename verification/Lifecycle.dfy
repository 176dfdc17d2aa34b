/** The bridge's peer, overlay and query tables as one value, and every step that edits them.

    The source spreads one logical object over seven flat maps and two lists per client. A step
    here is what one section under the lifecycle lock does, or one of the steps that other
    goroutines take without that lock. */
module Lifecycle {
  import opened Basics

  // Identifiers are compared for equality only, so the hex strings are numbered.
  type PeerHex = nat
  type OverlayHex = nat
  type QueryId = nat
  type ClientId = nat

  /** One connection object. Two generations may carry the same id. */
  datatype Peer = Peer(id: PeerHex, gen: nat)

  /** A query handler closure: the generation and the client it captured. */
  datatype Closure = Closure(peer: Peer, client: ClientId)

  /** A joined overlay: the generation whose manager carries it, and the client that joined. */
  datatype Attachment = Attachment(peer: Peer, client: ClientId, handler: Option<Closure>)

  datatype Pending = Pending(peer: Peer, owner: Option<ClientId>, deadline: nat)

  /** Serving: requests may run. Leaving: the exit has copied and cleared the peer list.
      Released: the peer cleanup has ended. */
  datatype Phase = Serving | Leaving(taken: seq<PeerHex>) | Released

  datatype ClientState = ClientState(peers: seq<PeerHex>, overlays: seq<OverlayHex>, phase: Phase)

  /** The maps behind activePeersMu. claimed and retired are history: who first owned a
      generation, and which generations have been detached. */
  datatype Registry = Registry(
    active: map<PeerHex, Peer>,
    wrappers: map<PeerHex, Peer>,
    owners: map<PeerHex, Option<ClientId>>,
    queries: map<PeerHex, Closure>,
    claimed: map<Peer, ClientId>,
    retired: set<Peer>)

  /** armed is history: every query closure handed out so far. Any of them may still fire. */
  datatype World = World(
    reg: Registry,
    attached: map<OverlayHex, Attachment>,
    peerOf: map<OverlayHex, PeerHex>,
    pending: map<QueryId, Pending>,
    armed: set<Closure>,
    lists: map<ClientId, ClientState>)

  datatype Limits = Limits(maxPeers: nat, maxOverlays: nat)

  // ---------------------------------------------------------------- steps without the lifecycle lock

  datatype Env =
    | Inbound(peer: Peer, closed: bool)           // gateway: installPeer(peer, nil)
    | Sweep(now: nat)                             // the ten-second sweep
    | AnswerExpired(query: QueryId, now: nat)     // first section of an answer handler
    | AnswerDone(query: QueryId, seen: Pending)   // last section of an answer handler
    | TakePeers(client: ClientId)                 // first section of the peer cleanup at exit

  datatype InstallOutcome = Installed | ReplacementWaiting | OtherOwner | ClosedEarly

  function Install(r: Registry, peer: Peer, owner: Option<ClientId>, closed: bool): (Registry, InstallOutcome) {
    var claimed := if owner.Some? then r.claimed[peer := owner.value] else r.claimed;
    if peer.id in r.active then
      var current := if peer.id in r.owners then r.owners[peer.id] else None;
      if r.active[peer.id] != peer then (r, ReplacementWaiting)
      else if owner.Some? && current.Some? && current != owner then (r, OtherOwner)
      else if owner.Some? then (r.(owners := r.owners[peer.id := owner], claimed := claimed), Installed)
      else (r, Installed)
    else if closed then (r, ClosedEarly)
    else
      (r.(active := r.active[peer.id := peer], wrappers := r.wrappers[peer.id := peer],
          owners := r.owners[peer.id := owner], claimed := claimed), Installed)
  }

  /** The gateway announces a generation when it creates it, so never one that was detached. */
  function RegEnv(r: Registry, e: Env): Registry {
    match e
    case Inbound(peer, closed) => if peer in r.retired then r else Install(r, peer, None, closed).0
    case _ => r
  }

  function Unexpired(pending: map<QueryId, Pending>, now: nat): map<QueryId, Pending> {
    map q | q in pending && now <= pending[q].deadline :: pending[q]
  }

  function PendEnv(pending: map<QueryId, Pending>, e: Env): map<QueryId, Pending> {
    match e
    case Sweep(now) => Unexpired(pending, now)
    case AnswerExpired(q, now) => if q in pending && now > pending[q].deadline then pending - {q} else pending
    case AnswerDone(q, seen) => if q in pending && pending[q] == seen then pending - {q} else pending
    case _ => pending
  }

  function ListEnv(lists: map<ClientId, ClientState>, e: Env): map<ClientId, ClientState> {
    match e
    case TakePeers(c) =>
      if c in lists && lists[c].phase.Serving?
      then lists[c := lists[c].(peers := [], phase := Leaving(lists[c].peers))]
      else lists
    case _ => lists
  }

  function EnvStep(w: World, e: Env): World {
    w.(reg := RegEnv(w.reg, e), pending := PendEnv(w.pending, e), lists := ListEnv(w.lists, e))
  }

  // ---------------------------------------------------------------- steps under the lifecycle lock

  datatype Event =
    | Env(e: Env)
    | Claim(client: ClientId, peer: Peer, closed: bool)
    | Detach(hex: PeerHex, expected: Peer)
    | Join(client: ClientId, overlay: OverlayHex, hex: PeerHex)
    | Leave(client: ClientId, overlay: OverlayHex)
    | ArmPeer(client: ClientId, hex: PeerHex)
    | ArmOverlay(client: ClientId, overlay: OverlayHex)
    | Query(closure: Closure, query: QueryId, deadline: nat)
    | Release(client: ClientId)

  ghost predicate ServingClient(w: World, c: ClientId) {
    c in w.lists && w.lists[c].phase.Serving?
  }

  ghost predicate Unowned(r: Registry, hex: PeerHex) {
    hex in r.active ==> hex in r.owners && r.owners[hex] == None
  }

  /** The checks the source makes before each step. */
  ghost predicate Enabled(limits: Limits, w: World, ev: Event) {
    match ev
    case Env(_) => true
    case Detach(_, _) => true
    case Claim(c, peer, closed) =>
      && ServingClient(w, c) && |w.lists[c].peers| < limits.maxPeers
      && peer !in w.reg.retired && Unowned(w.reg, peer.id)
      && Install(w.reg, peer, Some(c), closed).1 == Installed
    case Join(c, ov, hex) =>
      && ServingClient(w, c) && |w.lists[c].overlays| < limits.maxOverlays
      && hex in w.reg.active && hex in w.lists[c].peers && ov !in w.attached
    case Leave(c, ov) => ServingClient(w, c) && ov in w.lists[c].overlays && ov in w.attached
    case ArmPeer(c, hex) => ServingClient(w, c) && hex in w.reg.active && hex in w.lists[c].peers
    case ArmOverlay(c, ov) =>
      && ServingClient(w, c) && ov in w.lists[c].overlays && ov in w.attached && ov in w.peerOf
      && w.peerOf[ov] in w.reg.active && w.peerOf[ov] in w.lists[c].peers
    case Query(closure, _, _) => closure in w.armed
    case Release(c) => c in w.lists && w.lists[c].phase.Leaving? && forall h :: h in w.reg.owners ==> w.reg.owners[h] != Some(c)
  }

  /** The overlays mapped to a peer id. */
  function OverlaysOf(peerOf: map<OverlayHex, PeerHex>, hex: PeerHex): set<OverlayHex> {
    set ov | ov in peerOf && peerOf[ov] == hex
  }

  function NotFrom(pending: map<QueryId, Pending>, peer: Peer): map<QueryId, Pending> {
    map q | q in pending && pending[q].peer != peer :: pending[q]
  }

  function DropFromLists(lists: map<ClientId, ClientState>, owner: Option<ClientId>, hex: PeerHex, overlays: set<OverlayHex>)
    : map<ClientId, ClientState>
  {
    if owner.Some? && owner.value in lists then
      var s := lists[owner.value];
      lists[owner.value := s.(peers := Without(s.peers, {hex}), overlays := Without(s.overlays, overlays))]
    else lists
  }

  function RemoveKey(r: Registry, hex: PeerHex, peer: Peer): Registry {
    r.(active := r.active - {hex}, wrappers := r.wrappers - {hex}, owners := r.owners - {hex},
       queries := r.queries - {hex}, retired := r.retired + {peer})
  }

  function DetachStep(w: World, hex: PeerHex, expected: Peer): World {
    if Get(w.reg.active, hex) != Some(expected) then w
    else
      var gone := OverlaysOf(w.peerOf, hex);
      var owner := if hex in w.reg.owners then w.reg.owners[hex] else None;
      w.(reg := RemoveKey(w.reg, hex, expected), attached := w.attached - gone, peerOf := w.peerOf - gone,
         pending := NotFrom(w.pending, expected), lists := DropFromLists(w.lists, owner, hex, gone))
  }

  function AddPeer(lists: map<ClientId, ClientState>, c: ClientId, hex: PeerHex): map<ClientId, ClientState> {
    if c in lists && hex !in lists[c].peers
    then lists[c := lists[c].(peers := lists[c].peers + [hex])]
    else lists
  }

  function Apply(w: World, ev: Event): World {
    match ev
    case Env(e) => EnvStep(w, e)
    case Detach(hex, expected) => DetachStep(w, hex, expected)
    case Claim(c, peer, closed) =>
      w.(reg := Install(w.reg, peer, Some(c), closed).0, lists := AddPeer(w.lists, c, peer.id))
    case Join(c, ov, hex) =>
      if c !in w.lists || hex !in w.reg.active then w
      else w.(attached := w.attached[ov := Attachment(w.reg.active[hex], c, None)], peerOf := w.peerOf[ov := hex],
              lists := w.lists[c := w.lists[c].(overlays := w.lists[c].overlays + [ov])])
    case Leave(c, ov) =>
      if c !in w.lists then w
      else w.(attached := w.attached - {ov}, peerOf := w.peerOf - {ov},
              lists := w.lists[c := w.lists[c].(overlays := Without(w.lists[c].overlays, {ov}))])
    case ArmPeer(c, hex) =>
      if hex !in w.reg.active then w
      else
        var closure := Closure(w.reg.active[hex], c);
        w.(reg := w.reg.(queries := w.reg.queries[hex := closure]), armed := w.armed + {closure})
    case ArmOverlay(c, ov) =>
      if ov !in w.attached || ov !in w.peerOf || w.peerOf[ov] !in w.reg.active then w
      else
        var closure := Closure(w.reg.active[w.peerOf[ov]], c);
        w.(attached := w.attached[ov := w.attached[ov].(handler := Some(closure))], armed := w.armed + {closure})
    case Query(closure, q, deadline) =>
      if Get(w.reg.active, closure.peer.id) != Some(closure.peer) then w
      else w.(pending := w.pending[q := Pending(closure.peer, Some(closure.client), deadline)])
    case Release(c) =>
      if c in w.lists then w.(lists := w.lists[c := w.lists[c].(phase := Released)]) else w
  }

  // ---------------------------------------------------------------- what every step keeps

  ghost predicate KeysAgree(w: World) {
    && w.reg.active.Keys == w.reg.wrappers.Keys == w.reg.owners.Keys
    && w.reg.queries.Keys <= w.reg.active.Keys
    && w.attached.Keys == w.peerOf.Keys
  }

  /** An installed generation: filed under its own id, with its own manager, the owner that the
      history gives it, and a handler made for that generation. */
  ghost predicate PeerSound(w: World, h: PeerHex)
    requires KeysAgree(w) && h in w.reg.active
  {
    var peer := w.reg.active[h];
    && peer.id == h && w.reg.wrappers[h] == peer && peer !in w.reg.retired
    && w.reg.owners[h] == Get(w.reg.claimed, peer)
    && (w.reg.owners[h].Some? ==> w.reg.owners[h].value in w.lists)
    && (h in w.reg.queries ==> w.reg.queries[h].peer == peer && w.reg.queries[h] in w.armed)
  }

  /** A claimed generation is installed or was detached. */
  ghost predicate HistorySound(w: World) {
    && (forall p :: p in w.reg.claimed ==> Get(w.reg.active, p.id) == Some(p) || p in w.reg.retired)
    && (forall cl :: cl in w.armed ==> Get(w.reg.claimed, cl.peer) == Some(cl.client))
  }

  /** An overlay sits on an installed generation owned by the client that lists the overlay. */
  ghost predicate OverlaySound(w: World, ov: OverlayHex)
    requires KeysAgree(w) && ov in w.attached
  {
    var at := w.attached[ov];
    var h := w.peerOf[ov];
    && h in w.reg.active && at.peer == w.reg.active[h] && w.reg.owners[h] == Some(at.client)
    && at.client in w.lists && ov in w.lists[at.client].overlays
    && (at.handler.Some? ==> at.handler.value == Closure(at.peer, at.client) && at.handler.value in w.armed)
  }

  /** A pending query belongs to the installed generation of its peer id, and to that peer's owner. */
  ghost predicate QuerySound(w: World, q: QueryId)
    requires KeysAgree(w) && q in w.pending
  {
    var pq := w.pending[q];
    && Get(w.reg.active, pq.peer.id) == Some(pq.peer)
    && pq.owner.Some? && w.reg.owners[pq.peer.id] == pq.owner
  }

  /** The lists of a client against the maps, phase by phase, and within the limits. */
  ghost predicate ListSound(limits: Limits, w: World, c: ClientId)
    requires c in w.lists
  {
    var s := w.lists[c];
    && NoDup(s.peers) && NoDup(s.overlays)
    && |s.peers| <= limits.maxPeers && |s.overlays| <= limits.maxOverlays
    && (forall ov :: ov in s.overlays ==> ov in w.attached && w.attached[ov].client == c)
    && match s.phase
       case Serving => forall h :: h in s.peers <==> h in w.reg.owners && w.reg.owners[h] == Some(c)
       case Leaving(taken) => s.peers == [] && forall h :: h in w.reg.owners && w.reg.owners[h] == Some(c) ==> h in taken
       case Released => s.peers == [] && forall h :: h in w.reg.owners ==> w.reg.owners[h] != Some(c)
  }

  ghost predicate Valid(limits: Limits, w: World) {
    && KeysAgree(w) && HistorySound(w)
    && (forall h :: h in w.reg.active ==> PeerSound(w, h))
    && (forall ov :: ov in w.attached ==> OverlaySound(w, ov))
    && (forall q :: q in w.pending ==> QuerySound(w, q))
    && (forall c :: c in w.lists ==> ListSound(limits, w, c))
  }
}
