/** The one object that the flat maps spread out: a table of connected peers, each with its owner,
    handler, overlays and outstanding queries. The flat maps are the flattening of this table, and
    every step on the maps is one edit of the table. */
module PeerTable {
  import opened Basics
  import opened Lifecycle
  import opened LifecycleSteps

  datatype Entry = Entry(
    peer: Peer,
    owner: Option<ClientId>,
    handler: Option<Closure>,
    overlays: map<OverlayHex, Attachment>,
    queries: map<QueryId, Pending>)

  type Table = map<PeerHex, Entry>

  function OverlaysAt(attached: map<OverlayHex, Attachment>, peerOf: map<OverlayHex, PeerHex>, h: PeerHex)
    : map<OverlayHex, Attachment>
  {
    map ov | ov in attached && Get(peerOf, ov) == Some(h) :: attached[ov]
  }

  function QueriesOf(pending: map<QueryId, Pending>, peer: Peer): map<QueryId, Pending> {
    map q | q in pending && pending[q].peer == peer :: pending[q]
  }

  function EntryOf(w: World, h: PeerHex): Entry
    requires h in w.reg.active && h in w.reg.owners
  {
    Entry(w.reg.active[h], w.reg.owners[h], Get(w.reg.queries, h), OverlaysAt(w.attached, w.peerOf, h), QueriesOf(w.pending, w.reg.active[h]))
  }

  /** The table behind the flat maps. */
  function Abs(w: World): Table {
    map h | h in w.reg.active && h in w.reg.owners :: EntryOf(w, h)
  }

  // ---------------------------------------------------------------- flattening

  ghost predicate HostedBy(t: Table, ov: OverlayHex, h: PeerHex) {
    h in t && ov in t[h].overlays
  }

  ghost predicate AskedBy(t: Table, q: QueryId, h: PeerHex) {
    h in t && q in t[h].queries
  }

  /** The three maps with equal keys, and the handlers. */
  ghost predicate PeersFlatten(t: Table, w: World) {
    && t.Keys == w.reg.active.Keys == w.reg.wrappers.Keys == w.reg.owners.Keys
    && w.reg.queries.Keys <= t.Keys
    && (forall h :: h in t ==>
          && w.reg.active[h] == t[h].peer && w.reg.wrappers[h] == t[h].peer && w.reg.owners[h] == t[h].owner
          && Get(w.reg.queries, h) == t[h].handler)
  }

  /** Each overlay sits in exactly one entry: the one that the overlay map names. */
  ghost predicate OverlaysFlatten(t: Table, w: World) {
    && w.attached.Keys == w.peerOf.Keys
    && (forall ov, h :: HostedBy(t, ov, h) <==> ov in w.attached && w.peerOf[ov] == h)
    && (forall ov, h :: HostedBy(t, ov, h) ==> w.attached[ov] == t[h].overlays[ov])
  }

  /** Each pending query sits in exactly one entry: the one of the peer that asked. */
  ghost predicate QueriesFlatten(t: Table, w: World) {
    && (forall q, h :: AskedBy(t, q, h) <==> q in w.pending && w.pending[q].peer.id == h)
    && (forall q, h :: AskedBy(t, q, h) ==> w.pending[q] == t[h].queries[q] && w.pending[q].peer == t[h].peer)
  }

  /** The client lists are read off the table too, except that an exit clears its list early. */
  ghost predicate ListsFlatten(t: Table, lists: map<ClientId, ClientState>) {
    forall c :: c in lists ==>
      && NoDup(lists[c].peers) && NoDup(lists[c].overlays)
      && (lists[c].phase.Serving? ==> forall h :: h in lists[c].peers <==> h in t && t[h].owner == Some(c))
      && (!lists[c].phase.Serving? ==> lists[c].peers == [])
      && (forall ov :: ov in lists[c].overlays <==> exists h :: HostedBy(t, ov, h) && t[h].owner == Some(c))
  }

  lemma PeersFlattenAbs(limits: Limits, w: World)
    requires Valid(limits, w)
    ensures PeersFlatten(Abs(w), w)
  {
    forall h | h in Abs(w) ensures w.reg.wrappers[h] == Abs(w)[h].peer {
      assert PeerSound(w, h);
    }
  }

  lemma OverlaysFlattenAbs(limits: Limits, w: World)
    requires Valid(limits, w)
    ensures OverlaysFlatten(Abs(w), w)
  {
    forall ov | ov in w.attached ensures HostedBy(Abs(w), ov, w.peerOf[ov]) {
      assert OverlaySound(w, ov);
    }
  }

  lemma QueriesFlattenAbs(limits: Limits, w: World)
    requires Valid(limits, w)
    ensures QueriesFlatten(Abs(w), w)
  {
    forall q | q in w.pending ensures AskedBy(Abs(w), q, w.pending[q].peer.id) {
      assert QuerySound(w, q);
    }
    forall q, h | AskedBy(Abs(w), q, h) ensures w.pending[q].peer.id == h {
      assert PeerSound(w, h);
    }
  }

  lemma OverlayListFlattens(limits: Limits, w: World, c: ClientId, ov: OverlayHex)
    requires Valid(limits, w) && c in w.lists
    ensures ov in w.lists[c].overlays <==> exists h :: HostedBy(Abs(w), ov, h) && Abs(w)[h].owner == Some(c)
  {
    assert ListSound(limits, w, c);
    assert ov in w.attached ==> OverlaySound(w, ov);
    if ov in w.lists[c].overlays {
      assert HostedBy(Abs(w), ov, w.peerOf[ov]);
    }
  }

  lemma ListsFlattenAbs(limits: Limits, w: World)
    requires Valid(limits, w)
    ensures ListsFlatten(Abs(w), w.lists)
  {
    forall c | c in w.lists
      ensures w.lists[c].phase.Serving? ==> forall h :: h in w.lists[c].peers <==> h in Abs(w) && Abs(w)[h].owner == Some(c)
      ensures NoDup(w.lists[c].peers) && NoDup(w.lists[c].overlays) && (!w.lists[c].phase.Serving? ==> w.lists[c].peers == [])
    {
      assert ListSound(limits, w, c);
    }
    forall c, ov | c in w.lists
      ensures ov in w.lists[c].overlays <==> exists h :: HostedBy(Abs(w), ov, h) && Abs(w)[h].owner == Some(c)
    {
      OverlayListFlattens(limits, w, c, ov);
    }
  }

  /** The maps flatten one table only: whatever table they are read as, it is Abs. */
  lemma FlatteningUnique(w: World, t: Table)
    requires PeersFlatten(t, w) && OverlaysFlatten(t, w) && QueriesFlatten(t, w)
    requires KeysAgree(w) && forall h :: h in w.reg.active ==> w.reg.active[h].id == h
    ensures t == Abs(w)
  {
    forall h | h in t ensures t[h] == EntryOf(w, h) {
      assert forall ov :: ov in t[h].overlays <==> HostedBy(t, ov, h);
      assert t[h].overlays == OverlaysAt(w.attached, w.peerOf, h);
      assert forall q :: q in t[h].queries <==> AskedBy(t, q, h);
      assert t[h].queries == QueriesOf(w.pending, w.reg.active[h]);
    }
  }

  // ---------------------------------------------------------------- every step is one edit of the table

  /** A query id names one outstanding query: asking again under it replaces the earlier one. */
  function Asked(queries: map<QueryId, Pending>, peer: Peer, closure: Closure, q: QueryId, deadline: nat): map<QueryId, Pending> {
    if peer == closure.peer then queries[q := Pending(closure.peer, Some(closure.client), deadline)] else queries - {q}
  }

  function TableStep(t: Table, retired: set<Peer>, ev: Event): Table {
    match ev
    case Env(Inbound(peer, closed)) =>
      if peer in retired || peer.id in t || closed then t else t[peer.id := Entry(peer, None, None, map[], map[])]
    case Env(e) => map h | h in t :: t[h].(queries := PendEnv(t[h].queries, e))
    case Claim(c, peer, _) =>
      if peer.id in t then t[peer.id := t[peer.id].(owner := Some(c))]
      else t[peer.id := Entry(peer, Some(c), None, map[], map[])]
    case Detach(hex, expected) => if hex in t && t[hex].peer == expected then t - {hex} else t
    case Join(c, ov, hex) =>
      if hex !in t then t
      else t[hex := t[hex].(overlays := t[hex].overlays[ov := Attachment(t[hex].peer, c, None)])]
    case Leave(_, ov) => map h | h in t :: t[h].(overlays := t[h].overlays - {ov})
    case ArmPeer(c, hex) => if hex !in t then t else t[hex := t[hex].(handler := Some(Closure(t[hex].peer, c)))]
    case ArmOverlay(c, ov) =>
      map h | h in t ::
        if ov !in t[h].overlays then t[h]
        else t[h].(overlays := t[h].overlays[ov := t[h].overlays[ov].(handler := Some(Closure(t[h].peer, c)))])
    case Query(closure, q, deadline) =>
      if closure.peer.id !in t || t[closure.peer.id].peer != closure.peer then t
      else map h | h in t :: t[h].(queries := Asked(t[h].queries, t[h].peer, closure, q, deadline))
    case Release(_) => t
  }

  // How the part of a map that belongs to one entry follows an edit of the whole map.

  lemma QueriesOfEnv(pending: map<QueryId, Pending>, peer: Peer, e: Env)
    ensures QueriesOf(PendEnv(pending, e), peer) == PendEnv(QueriesOf(pending, peer), e)
  {}

  lemma QueriesOfAsked(pending: map<QueryId, Pending>, peer: Peer, cl: Closure, q: QueryId, d: nat)
    ensures QueriesOf(pending[q := Pending(cl.peer, Some(cl.client), d)], peer) == Asked(QueriesOf(pending, peer), peer, cl, q, d)
  {}

  lemma QueriesOfDetached(pending: map<QueryId, Pending>, peer: Peer, gone: Peer)
    requires peer != gone
    ensures QueriesOf(NotFrom(pending, gone), peer) == QueriesOf(pending, peer)
  {}

  lemma OverlaysAtRemoved(attached: map<OverlayHex, Attachment>, peerOf: map<OverlayHex, PeerHex>, gone: set<OverlayHex>, h: PeerHex)
    ensures OverlaysAt(attached - gone, peerOf - gone, h) == OverlaysAt(attached, peerOf, h) - gone
  {}

  lemma OverlaysAtOther(attached: map<OverlayHex, Attachment>, peerOf: map<OverlayHex, PeerHex>, hex: PeerHex, h: PeerHex)
    requires h != hex
    ensures OverlaysAt(attached, peerOf, h) - OverlaysOf(peerOf, hex) == OverlaysAt(attached, peerOf, h)
  {}

  lemma OverlaysAtJoined(attached: map<OverlayHex, Attachment>, peerOf: map<OverlayHex, PeerHex>, ov: OverlayHex,
                         at: Attachment, hex: PeerHex, h: PeerHex)
    requires ov !in attached
    ensures OverlaysAt(attached[ov := at], peerOf[ov := hex], h)
         == if h == hex then OverlaysAt(attached, peerOf, h)[ov := at] else OverlaysAt(attached, peerOf, h)
  {}

  lemma OverlaysAtArmed(attached: map<OverlayHex, Attachment>, peerOf: map<OverlayHex, PeerHex>, ov: OverlayHex,
                        at: Attachment, h: PeerHex)
    requires ov in attached
    ensures
      var mine := OverlaysAt(attached, peerOf, h);
      OverlaysAt(attached[ov := at], peerOf, h) == if ov in mine then mine[ov := at] else mine
  {}

  /** An id that is not installed has no overlays and no queries waiting for it. */
  lemma NoOverlaysWait(w: World, h: PeerHex)
    requires KeysAgree(w) && h !in w.reg.active
    requires forall ov :: ov in w.attached ==> OverlaySound(w, ov)
    ensures OverlaysAt(w.attached, w.peerOf, h) == map[]
  {
    forall ov | ov in w.attached ensures Get(w.peerOf, ov) != Some(h) {
      assert OverlaySound(w, ov);
    }
  }

  lemma NoQueriesWait(w: World, peer: Peer)
    requires KeysAgree(w) && peer.id !in w.reg.active
    requires forall q :: q in w.pending ==> QuerySound(w, q)
    ensures QueriesOf(w.pending, peer) == map[]
  {
    forall q | q in w.pending ensures w.pending[q].peer != peer {
      assert QuerySound(w, q);
    }
  }

  lemma ClaimRefines(limits: Limits, w: World, ev: Event, h: PeerHex)
    requires ev.Claim?
    requires KeysAgree(w) && Enabled(limits, w, ev) && KeysAgree(Apply(w, ev))
    requires h == ev.peer.id && h !in w.reg.active ==>
      OverlaysAt(w.attached, w.peerOf, h) == map[] && QueriesOf(w.pending, ev.peer) == map[]
    ensures Get(Abs(Apply(w, ev)), h) == Get(TableStep(Abs(w), w.reg.retired, ev), h)
  {}

  lemma InboundRefines(limits: Limits, w: World, ev: Event, h: PeerHex)
    requires ev.Env? && ev.e.Inbound?
    requires KeysAgree(w) && KeysAgree(Apply(w, ev))
    requires h == ev.e.peer.id && h !in w.reg.active ==>
      OverlaysAt(w.attached, w.peerOf, h) == map[] && QueriesOf(w.pending, ev.e.peer) == map[]
    ensures Get(Abs(Apply(w, ev)), h) == Get(TableStep(Abs(w), w.reg.retired, ev), h)
  {}

  lemma HandlerRefines(limits: Limits, w: World, ev: Event, h: PeerHex)
    requires ev.ArmPeer? || ev.Release?
    requires KeysAgree(w) && Enabled(limits, w, ev) && KeysAgree(Apply(w, ev))
    ensures Get(Abs(Apply(w, ev)), h) == Get(TableStep(Abs(w), w.reg.retired, ev), h)
  {}

  lemma DetachRefines(w: World, hex: PeerHex, peer: Peer, h: PeerHex)
    requires KeysAgree(w) && KeysAgree(DetachStep(w, hex, peer))
    requires h in w.reg.active ==> w.reg.active[h].id == h
    requires hex in w.reg.active ==> w.reg.active[hex].id == hex
    ensures Get(Abs(DetachStep(w, hex, peer)), h) == Get(TableStep(Abs(w), w.reg.retired, Detach(hex, peer)), h)
  {
    if h in w.reg.active && h != hex {
      OverlaysAtRemoved(w.attached, w.peerOf, OverlaysOf(w.peerOf, hex), h);
      OverlaysAtOther(w.attached, w.peerOf, hex, h);
      if w.reg.active[h] != peer {
        QueriesOfDetached(w.pending, w.reg.active[h], peer);
      }
    }
  }

  lemma OverlayStepRefines(limits: Limits, w: World, ev: Event, h: PeerHex)
    requires ev.Join? || ev.Leave? || ev.ArmOverlay?
    requires KeysAgree(w) && Enabled(limits, w, ev) && KeysAgree(Apply(w, ev))
    ensures Get(Abs(Apply(w, ev)), h) == Get(TableStep(Abs(w), w.reg.retired, ev), h)
  {
    match ev
    case Join(c, ov, hex) => OverlaysAtJoined(w.attached, w.peerOf, ov, Attachment(w.reg.active[hex], c, None), hex, h);
    case Leave(c, ov) => OverlaysAtRemoved(w.attached, w.peerOf, {ov}, h);
    case ArmOverlay(c, ov) =>
      var at := w.attached[ov].(handler := Some(Closure(w.reg.active[w.peerOf[ov]], c)));
      OverlaysAtArmed(w.attached, w.peerOf, ov, at, h);
  }

  lemma QueryStepRefines(limits: Limits, w: World, ev: Event, h: PeerHex)
    requires ev.Query? || (ev.Env? && !ev.e.Inbound?)
    requires KeysAgree(w) && Enabled(limits, w, ev) && KeysAgree(Apply(w, ev))
    ensures Get(Abs(Apply(w, ev)), h) == Get(TableStep(Abs(w), w.reg.retired, ev), h)
  {
    if h in w.reg.active {
      match ev
      case Env(e) => QueriesOfEnv(w.pending, w.reg.active[h], e);
      case Query(cl, q, d) => QueriesOfAsked(w.pending, w.reg.active[h], cl, q, d);
    }
  }

  lemma EntryRefines(limits: Limits, w: World, ev: Event, h: PeerHex)
    requires Valid(limits, w) && Enabled(limits, w, ev) && KeysAgree(Apply(w, ev))
    ensures Get(Abs(Apply(w, ev)), h) == Get(TableStep(Abs(w), w.reg.retired, ev), h)
  {
    match ev
    case Env(Inbound(peer, _)) =>
      if peer.id !in w.reg.active {
        NoOverlaysWait(w, peer.id);
        NoQueriesWait(w, peer);
      }
      InboundRefines(limits, w, ev, h);
    case Claim(_, peer, _) =>
      if peer.id !in w.reg.active {
        NoOverlaysWait(w, peer.id);
        NoQueriesWait(w, peer);
      }
      ClaimRefines(limits, w, ev, h);
    case Detach(hex, peer) =>
      assert h in w.reg.active ==> PeerSound(w, h);
      assert hex in w.reg.active ==> PeerSound(w, hex);
      DetachRefines(w, hex, peer, h);
    case ArmPeer(_, _) => HandlerRefines(limits, w, ev, h);
    case Release(_) => HandlerRefines(limits, w, ev, h);
    case Join(_, _, _) => OverlayStepRefines(limits, w, ev, h);
    case Leave(_, _) => OverlayStepRefines(limits, w, ev, h);
    case ArmOverlay(_, _) => OverlayStepRefines(limits, w, ev, h);
    case Query(_, _, _) => QueryStepRefines(limits, w, ev, h);
    case Env(_) => QueryStepRefines(limits, w, ev, h);
  }

  lemma SameTable(a: Table, b: Table)
    requires forall h :: Get(a, h) == Get(b, h)
    ensures a == b
  {
    forall h ensures h in a <==> h in b {
      assert Get(a, h) == Get(b, h);
    }
    forall h | h in a ensures a[h] == b[h] {
      assert Get(a, h) == Get(b, h);
    }
  }

  /** Refinement: the flat edits of each step amount to one edit of the table. Detaching a peer is
      removing one key. */
  lemma StepRefines(limits: Limits, w: World, ev: Event)
    requires Valid(limits, w) && Enabled(limits, w, ev)
    ensures Abs(Apply(w, ev)) == TableStep(Abs(w), w.reg.retired, ev)
  {
    KeysKept(limits, w, ev);
    forall h ensures Get(Abs(Apply(w, ev)), h) == Get(TableStep(Abs(w), w.reg.retired, ev), h) {
      EntryRefines(limits, w, ev, h);
    }
    SameTable(Abs(Apply(w, ev)), TableStep(Abs(w), w.reg.retired, ev));
  }
}
