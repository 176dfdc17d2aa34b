/** The bridge and its clients as the source has them: maps and lists updated in place. Each method
    is one handler; calls of Others mark the places between two sections that touch what the steps
    without the lifecycle lock touch, so that gateway inserts, sweeps, answers and exits of other
    clients may happen there. Where a section edits only the overlay maps, which none of those steps
    reads or writes, the gap beside it is left to the next call. */
module Bridge {
  import opened Basics
  import opened Lifecycle
  import opened LifecycleRuns
  import opened Interference
  import Slices

  /** What one call of RegisterClient gives: a connection or an error, whether the gateway announced
      it, whether it had closed by then, whether it answers the ping, and whether it has closed when
      it is to be installed. */
  datatype Attempt = Attempt(peer: Option<Peer>, announced: bool, closedAtOnce: bool, ping: bool, closedLater: bool)

  /** A connection that was detached is closed: it is not announced again and answers no ping. */
  ghost predicate AttemptSound(a: Attempt, retired: set<Peer>) {
    a.peer.Some? && (a.announced || a.ping) ==> a.peer.value !in retired
  }

  /** Endpoint i gives a connection that answers its ping, and no earlier one does. */
  ghost predicate LowestLive(attempts: seq<Attempt>, i: nat)
    requires i < |attempts|
  {
    && attempts[i].peer.Some? && attempts[i].ping
    && forall j :: 0 <= j < i ==> attempts[j].peer.None? || !attempts[j].ping
  }

  /** An endpoint may give again the connection that an earlier one gave. It was closed when it did not
      answer its ping, so it is not announced and does not answer now. */
  ghost predicate ClosedStaysClosed(attempts: seq<Attempt>) {
    forall i, j :: 0 <= i < j < |attempts| && attempts[i].peer.Some? && !attempts[i].ping && attempts[i].peer == attempts[j].peer ==>
      !attempts[j].announced && !attempts[j].ping
  }

  datatype Reply =
    | Connected
    | OwnedByAnother
    | PeerLimit
    | NotLive
    | RegisterFailed
    | NoPing
    | OwnershipFailed
    | NoLiveAddress

  /** The reply to a connect for an id that is already installed. */
  function ReplyForExisting(owner: Option<ClientId>, client: ClientId, room: bool, ping: bool): (reply: Reply)
    ensures reply == OwnedByAnother <==> owner.Some? && owner.value != client
    ensures reply == PeerLimit <==> owner.None? && !room
    ensures reply == Connected <==> ping && (owner == Some(client) || (owner.None? && room))
    ensures reply == NotLive <==> !ping && (owner == Some(client) || (owner.None? && room))
  {
    if owner.Some? && owner.value != client then OwnedByAnother
    else if owner.None? && !room then PeerLimit
    else if ping then Connected else NotLive
  }

  class WsClient {
    const id: ClientId
    var peers: seq<PeerHex>
    var overlays: seq<OverlayHex>
    var phase: Phase  // the point that the exit of this client has reached

    ghost function State(): ClientState
      reads this
    {
      ClientState(peers, overlays, phase)
    }

    constructor (id: ClientId)
      ensures this.id == id && State() == ClientState([], [], Serving)
    {
      this.id := id;
      peers, overlays, phase := [], [], Serving;
    }

    /** clientOwnsPeer */
    method OwnsPeer(hex: PeerHex) returns (owns: bool)
      ensures owns <==> hex in peers
    {
      for i := 0 to |peers|
        invariant hex !in peers[..i]
      {
        if peers[i] == hex {
          return true;
        }
      }
      return false;
    }

    /** clientOwnsOverlay */
    method OwnsOverlay(overlay: OverlayHex) returns (owns: bool)
      ensures owns <==> overlay in overlays
    {
      for i := 0 to |overlays|
        invariant overlay !in overlays[..i]
      {
        if overlays[i] == overlay {
          return true;
        }
      }
      return false;
    }

    /** The loop of overlay.leave: cuts out the first occurrence. */
    method CutOverlay(overlay: OverlayHex)
      requires NoDup(overlays)
      modifies this`overlays
      ensures overlays == Without(old(overlays), {overlay})
    {
      for i := 0 to |overlays|
        invariant overlays == old(overlays) && overlay !in overlays[..i]
      {
        if overlays[i] == overlay {
          WithoutOne(overlays, i);
          overlays := overlays[..i] + overlays[i + 1..];
          return;
        }
      }
    }

    /** addClientPeer */
    method AddClientPeer(hex: PeerHex)
      modifies this`peers
      ensures peers == if hex in old(peers) then old(peers) else old(peers) + [hex]
    {
      var owned := OwnsPeer(hex);
      if !owned {
        peers := peers + [hex];
      }
    }

    /** The filter loop of a detach over the peer list, into the list's own array. */
    method DropPeer(hex: PeerHex)
      modifies this`peers
      ensures peers == Without(old(peers), {hex})
    {
      peers := FilterList(peers, {hex});
    }

    /** The filter loop of a detach over the overlay list. */
    method DropOverlays(removed: set<OverlayHex>)
      modifies this`overlays
      ensures overlays == Without(old(overlays), removed)
    {
      overlays := FilterList(overlays, removed);
    }
  }

  /** Lays a list out in its array, filters it there, and reads what is left. */
  method FilterList(list: seq<nat>, drop: set<nat>) returns (kept: seq<nat>)
    ensures kept == Without(list, drop)
  {
    hide Without;
    var a := new nat[|list|](i requires 0 <= i < |list| => list[i]);
    assert a[..|list|] == list;
    var n := Slices.FilterInPlace(a, |list|, drop);
    kept := a[..n];
  }

  class WSBridge {
    const limits: Limits
    const clients: map<ClientId, WsClient>

    var activePeers: map<PeerHex, Peer>
    var peerWrappers: map<PeerHex, Peer>
    var peerOwners: map<PeerHex, Option<ClientId>>
    var peerQueries: map<PeerHex, Closure>
    var activeOverlays: map<OverlayHex, Attachment>
    var overlayToPeer: map<OverlayHex, PeerHex>
    var pendingQueries: map<QueryId, Pending>
    ghost var claimed: map<Peer, ClientId>
    var retired: set<Peer>  // connections already detached: the gateway never announces these again
    ghost var armed: set<Closure>

    ghost function Reg(): Registry
      reads this`activePeers, this`peerWrappers, this`peerOwners, this`peerQueries, this`claimed, this`retired
    {
      Registry(activePeers, peerWrappers, peerOwners, peerQueries, claimed, retired)
    }

    ghost function Lists(): map<ClientId, ClientState>
      reads clients.Values
    {
      map c | c in clients :: clients[c].State()
    }

    /** Everything the maps and lists hold at this moment. */
    ghost function Now(): World
      reads this, clients.Values
    {
      World(Reg(), activeOverlays, overlayToPeer, pendingQueries, armed, Lists())
    }

    /** Each client object is filed under its own number. */
    ghost predicate Shape() {
      forall c :: c in clients ==> clients[c].id == c
    }

    ghost predicate Good()
      reads this, clients.Values
    {
      Shape() && Valid(limits, Now())
    }

    constructor (limits: Limits, clients: map<ClientId, WsClient>)
      requires forall c :: c in clients ==> clients[c].id == c && clients[c].State() == ClientState([], [], Serving)
      ensures this.limits == limits && this.clients == clients && Good() && Fresh(Now())
    {
      this.limits, this.clients := limits, clients;
      activePeers, peerWrappers, peerOwners, peerQueries := map[], map[], map[], map[];
      activeOverlays, overlayToPeer, pendingQueries := map[], map[], map[];
      claimed, retired, armed := map[], {}, {};
      new;
      FreshValid(limits, Now());
    }

    // -------------------------------------------------------------- without the lifecycle lock

    /** installPeer: one section under activePeersMu. */
    method InstallPeer(peer: Peer, owner: Option<ClientId>, closed: bool) returns (outcome: InstallOutcome)
      modifies this`activePeers, this`peerWrappers, this`peerOwners, this`claimed
      ensures Reg() == Install(old(Reg()), peer, owner, closed).0
      ensures outcome == Install(old(Reg()), peer, owner, closed).1
      ensures outcome != Installed ==> Reg() == old(Reg())
      ensures outcome == ReplacementWaiting <==> peer.id in old(activePeers) && old(activePeers)[peer.id] != peer
      ensures outcome == OtherOwner <==>
        && Get(old(activePeers), peer.id) == Some(peer) && owner.Some?
        && peer.id in old(peerOwners) && old(peerOwners)[peer.id].Some? && old(peerOwners)[peer.id] != owner
      ensures outcome == ClosedEarly <==> peer.id !in old(activePeers) && closed
      ensures outcome == Installed ==> Get(activePeers, peer.id) == Some(peer) && (owner.Some? ==> Get(peerOwners, peer.id) == Some(owner))
    {
      if peer.id in activePeers {
        if activePeers[peer.id] != peer {
          return ReplacementWaiting;
        }
        var currentOwner := if peer.id in peerOwners then peerOwners[peer.id] else None;
        if owner != None && currentOwner != None && currentOwner != owner {
          return OtherOwner;
        }
        if owner != None {
          peerOwners := peerOwners[peer.id := owner];
          claimed := claimed[peer := owner.value];
        }
        return Installed;
      }
      if closed {
        return ClosedEarly;
      }
      activePeers := activePeers[peer.id := peer];
      peerWrappers := peerWrappers[peer.id := peer];
      peerOwners := peerOwners[peer.id := owner];
      if owner != None {
        claimed := claimed[peer := owner.value];
      }
      return Installed;
    }

    /** The sweep deletes while it iterates over the map. */
    method Sweep(now: nat)
      modifies this`pendingQueries
      ensures pendingQueries == Unexpired(old(pendingQueries), now)
      ensures forall q :: q in pendingQueries <==> q in old(pendingQueries) && now <= old(pendingQueries)[q].deadline
      ensures forall q :: q in pendingQueries ==> pendingQueries[q] == old(pendingQueries)[q]
    {
      var todo := pendingQueries.Keys;
      while todo != {}
        invariant todo <= pendingQueries.Keys <= old(pendingQueries).Keys
        invariant forall q :: q in pendingQueries ==> pendingQueries[q] == old(pendingQueries)[q]
        invariant forall q :: q in old(pendingQueries) && q !in todo ==> (q in pendingQueries <==> now <= old(pendingQueries)[q].deadline)
        invariant forall q :: q in todo ==> q in pendingQueries
      {
        var id :| id in todo;
        if now > pendingQueries[id].deadline {
          pendingQueries := pendingQueries - {id};
        }
        todo := todo - {id};
      }
    }

    /** First section of both answer handlers. */
    method AnswerLookup(client: ClientId, query: QueryId, now: nat) returns (found: Option<Pending>, expired: bool)
      modifies this`pendingQueries
      ensures pendingQueries == PendEnv(old(pendingQueries), AnswerExpired(query, now))
      ensures expired <==> query !in old(pendingQueries) || now > old(pendingQueries)[query].deadline
      ensures found.Some? <==> !expired && (old(pendingQueries)[query].owner == None || old(pendingQueries)[query].owner == Some(client))
      ensures found.Some? ==> found == Get(old(pendingQueries), query)
      ensures pendingQueries == if query in old(pendingQueries) && expired then old(pendingQueries) - {query} else old(pendingQueries)
    {
      if query !in pendingQueries || now > pendingQueries[query].deadline {
        if query in pendingQueries {
          pendingQueries := pendingQueries - {query};
        }
        return None, true;
      }
      var pq := pendingQueries[query];
      if pq.owner != None && pq.owner != Some(client) {
        return None, false;
      }
      return Some(pq), false;
    }

    /** Last section of both answer handlers. */
    method AnswerFinish(query: QueryId, seen: Pending)
      modifies this`pendingQueries
      ensures pendingQueries == PendEnv(old(pendingQueries), AnswerDone(query, seen))
      ensures pendingQueries == if Get(old(pendingQueries), query) == Some(seen) then old(pendingQueries) - {query} else old(pendingQueries)
    {
      if query in pendingQueries && pendingQueries[query] == seen {
        pendingQueries := pendingQueries - {query};
      }
    }

    /** First section of the peer cleanup at exit. */
    method TakePeers(client: ClientId) returns (peerIDs: seq<PeerHex>)
      requires Shape() && client in clients
      requires clients[client].phase.Serving?
      modifies clients[client]
      ensures Lists() == ListEnv(old(Lists()), Env.TakePeers(client))
      ensures clients[client].phase == Leaving(peerIDs)
    {
      var c := clients[client];
      peerIDs := c.peers;
      c.peers := [];
      c.phase := Leaving(peerIDs);
      assert forall k :: k in clients && k != client ==> clients[k] != c;
    }

    /** What the other goroutines do while a handler is between two sections: anything that needs no
        lifecycle lock, any number of times. */
    method Others(busy: set<ClientId>) returns (ghost es: seq<Env>)
      requires Shape()
      modifies this`activePeers, this`peerWrappers, this`peerOwners, this`claimed, this`pendingQueries, clients.Values
      ensures Reg() == RegRun(old(Reg()), es) && pendingQueries == PendRun(old(pendingQueries), es)
      ensures Lists() == ListRun(old(Lists()), es) && Spares(es, busy)
    {
      var script: seq<Env> := *;
      es := [];
      for i := 0 to |script|
        invariant Reg() == RegRun(old(Reg()), es) && pendingQueries == PendRun(old(pendingQueries), es)
        invariant Lists() == ListRun(old(Lists()), es) && Spares(es, busy)
      {
        var ran := Perform(script[i], busy);
        if ran {
          assert (es + [script[i]])[..|es|] == es;
          es := es + [script[i]];
        }
      }
    }

    method Perform(e: Env, busy: set<ClientId>) returns (ran: bool)
      requires Shape()
      modifies this`activePeers, this`peerWrappers, this`peerOwners, this`claimed, this`pendingQueries, clients.Values
      ensures ran ==> Reg() == RegEnv(old(Reg()), e) && pendingQueries == PendEnv(old(pendingQueries), e)
      ensures ran ==> Lists() == ListEnv(old(Lists()), e)
      ensures !ran ==> Reg() == old(Reg()) && pendingQueries == old(pendingQueries) && Lists() == old(Lists())
      ensures ran && e.TakePeers? ==> e.client !in busy
      ensures !e.TakePeers? ==> ran
    {
      ran := true;
      match e {
        case Inbound(peer, closed) =>
          if peer !in retired {
            var _ := InstallPeer(peer, None, closed);
          }
        case Sweep(now) => Sweep(now);
        case AnswerExpired(q, now) =>
          var _, _ := AnswerLookup(0, q, now);
        case AnswerDone(q, seen) => AnswerFinish(q, seen);
        case TakePeers(c) =>
          if c in busy || c !in clients || !clients[c].phase.Serving? {
            ran := false;
          } else {
            var _ := TakePeers(c);
          }
      }
    }

    // -------------------------------------------------------------- under the lifecycle lock

    /** detachPeerLocked. In spite of everything that may happen between its sections, it is one
        atomic step, and its second look at the generation never fails. */
    method DetachPeerLocked(hex: PeerHex, expected: Peer, busy: set<ClientId>)
      returns (owner: Option<ClientId>, removed: bool, ghost log: seq<Event>)
      requires Shape()
      modifies this, clients.Values
      ensures Explains(limits, old(Now()), Now(), log)
      ensures removed <==> Get(old(activePeers), hex) == Some(expected)
      ensures removed ==> owner == if hex in old(peerOwners) then old(peerOwners)[hex] else None
      ensures Own(log) == if removed then [Event.Detach(hex, expected)] else []
      ensures Get(activePeers, hex) != Some(expected) && (removed ==> hex !in activePeers)
      ensures forall k :: k in busy && k in clients ==> clients[k].phase == old(clients[k].phase)
      ensures if removed then retired == old(retired) + {expected} else Now() == old(Now())
      ensures forall k :: k in busy && k in clients && (removed ==> owner != Some(k)) ==> clients[k].State() == old(clients[k].State())
    {
      hide Explains, Own, Run, Legal, OnlyDetaches, Spares, Apply;
      ghost var w0 := Now();
      NoSteps(limits, w0, hex);
      owner := if hex in peerOwners then peerOwners[hex] else None;
      if hex !in activePeers || activePeers[hex] != expected {
        log := [];
        return None, false, [];
      }
      ghost var before, after := DetachSections(hex, expected, owner, busy);
      removed := true;
      ListsSpared(w0, hex, expected, before, after, busy);
      log := DetachIsAtomic(limits, w0, hex, expected, before, after);
    }

    /** A detach from its second section on. */
    method DetachSections(hex: PeerHex, expected: Peer, owner: Option<ClientId>, busy: set<ClientId>)
      returns (ghost before: seq<Env>, ghost after: seq<Env>)
      requires Shape() && Get(activePeers, hex) == Some(expected)
      requires owner == if hex in peerOwners then peerOwners[hex] else None
      modifies this, clients.Values
      ensures Now() == Detached(old(Now()), hex, expected, before, after) && Spares(before + after, busy)
      ensures retired == old(retired) + {expected} && hex !in activePeers
    {
      ghost var r := Reg();
      before, after := ReleaseResources(hex, expected, owner, busy);
      InstalledStays(r, before + after, hex);
      InsertsAreUnowned(r, before + after);
      if hex !in activePeers || activePeers[hex] != expected {
        assert false;
      } else {
        Forget(hex, expected);
      }
    }

    /** The last section of a detach. */
    method Forget(hex: PeerHex, expected: Peer)
      modifies this`activePeers, this`peerWrappers, this`peerOwners, this`peerQueries, this`retired
      ensures Reg() == RemoveKey(old(Reg()), hex, expected)
    {
      activePeers := activePeers - {hex};
      peerWrappers := peerWrappers - {hex};
      peerOwners := peerOwners - {hex};
      peerQueries := peerQueries - {hex};
      retired := retired + {expected};
    }

    /** The sections in between: overlays, queries, and the lists of the owner. */
    method ReleaseResources(hex: PeerHex, expected: Peer, owner: Option<ClientId>, busy: set<ClientId>)
      returns (ghost before: seq<Env>, ghost after: seq<Env>)
      requires Shape()
      modifies this`activePeers, this`peerWrappers, this`peerOwners, this`claimed
      modifies this`pendingQueries, this`overlayToPeer, this`activeOverlays, clients.Values
      ensures Reg() == RegRun(old(Reg()), before + after)
      ensures overlayToPeer == old(overlayToPeer) - OverlaysOf(old(overlayToPeer), hex)
      ensures activeOverlays == old(activeOverlays) - OverlaysOf(old(overlayToPeer), hex)
      ensures pendingQueries == NotFrom(PendRun(old(pendingQueries), before + after), expected)
      ensures Lists() == ListRun(DropFromLists(ListRun(old(Lists()), before), owner, hex, OverlaysOf(old(overlayToPeer), hex)), after)
      ensures Spares(before + after, busy)
    {
      ghost var w0 := Now();
      var overlayIDs;
      overlayIDs, before := ReleaseOverlays(hex, busy);

      DropQueriesOf(expected);
      ghost var more := Others(busy);
      EnvRunConcat(w0, before, more);
      DropQueriesCommutes(PendRun(w0.pending, before), expected, more);
      before := before + more;

      DropFromOwner(owner, hex, overlayIDs);
      after := Others(busy);
      EnvRunConcat(w0, before, after);
      DropQueriesCommutes(PendRun(w0.pending, before), expected, after);
    }

    method ReleaseOverlays(hex: PeerHex, busy: set<ClientId>) returns (overlayIDs: set<OverlayHex>, ghost before: seq<Env>)
      requires Shape()
      modifies this`activePeers, this`peerWrappers, this`peerOwners, this`claimed
      modifies this`pendingQueries, this`overlayToPeer, this`activeOverlays, clients.Values
      ensures Reg() == RegRun(old(Reg()), before) && pendingQueries == PendRun(old(pendingQueries), before)
      ensures Lists() == ListRun(old(Lists()), before) && Spares(before, busy)
      ensures overlayIDs == OverlaysOf(old(overlayToPeer), hex)
      ensures overlayToPeer == old(overlayToPeer) - overlayIDs && activeOverlays == old(activeOverlays) - overlayIDs
    {
      ghost var w0 := Now();
      before := Others(busy);

      overlayIDs := TakeOverlaysOf(hex);
      ghost var more := Others(busy);
      EnvRunConcat(w0, before, more);
      before := before + more;

      RemoveOverlays(overlayIDs);
      more := Others(busy);
      EnvRunConcat(w0, before, more);
      before := before + more;
    }

    /** The section under the owner's peersMu. */
    method DropFromOwner(owner: Option<ClientId>, hex: PeerHex, overlayIDs: set<OverlayHex>)
      requires Shape()
      modifies clients.Values
      ensures Lists() == DropFromLists(old(Lists()), owner, hex, overlayIDs)
    {
      if owner != None && owner.value in clients {
        var c := clients[owner.value];
        c.DropPeer(hex);
        c.DropOverlays(overlayIDs);
        assert forall k :: k in clients && k != owner.value ==> clients[k] != c;
      }
    }

    /** The section under overlayToPeerMu: deletes while it iterates. */
    method TakeOverlaysOf(hex: PeerHex) returns (overlayIDs: set<OverlayHex>)
      modifies this`overlayToPeer
      ensures overlayIDs == OverlaysOf(old(overlayToPeer), hex)
      ensures overlayToPeer == old(overlayToPeer) - overlayIDs
    {
      overlayIDs := {};
      var todo := overlayToPeer.Keys;
      while todo != {}
        invariant todo <= old(overlayToPeer).Keys
        invariant overlayIDs == OverlaysOf(old(overlayToPeer), hex) - todo
        invariant overlayToPeer == old(overlayToPeer) - overlayIDs
      {
        var ov :| ov in todo;
        if overlayToPeer[ov] == hex {
          overlayIDs := overlayIDs + {ov};
          overlayToPeer := overlayToPeer - {ov};
        }
        todo := todo - {ov};
      }
    }

    /** The section under activeOverlaysMu. */
    method RemoveOverlays(overlayIDs: set<OverlayHex>)
      modifies this`activeOverlays
      ensures activeOverlays == old(activeOverlays) - overlayIDs
    {
      var todo := overlayIDs;
      while todo != {}
        invariant todo <= overlayIDs
        invariant activeOverlays == old(activeOverlays) - (overlayIDs - todo)
      {
        var ov :| ov in todo;
        if ov in activeOverlays {
          activeOverlays := activeOverlays - {ov};
        }
        todo := todo - {ov};
      }
    }

    /** The section under pendingQueriesMu: deletes while it iterates. */
    method DropQueriesOf(peer: Peer)
      modifies this`pendingQueries
      ensures pendingQueries == NotFrom(old(pendingQueries), peer)
    {
      var todo := pendingQueries.Keys;
      while todo != {}
        invariant todo <= pendingQueries.Keys <= old(pendingQueries).Keys
        invariant forall q :: q in pendingQueries ==> pendingQueries[q] == old(pendingQueries)[q]
        invariant forall q :: q in old(pendingQueries) && q !in todo ==> (q in pendingQueries <==> old(pendingQueries)[q].peer != peer)
      {
        var q :| q in todo;
        if pendingQueries[q].peer == peer {
          pendingQueries := pendingQueries - {q};
        }
        todo := todo - {q};
      }
    }

    // -------------------------------------------------------------- handlers

    /** A gap between two sections of a handler. */
    method Pause(busy: set<ClientId>) returns (ghost log: seq<Event>)
      requires Shape()
      modifies this`activePeers, this`peerWrappers, this`peerOwners, this`claimed, this`pendingQueries, clients.Values
      ensures Explains(limits, old(Now()), Now(), log) && Own(log) == []
      ensures Paused(old(Now()), Now(), busy)
    {
      ghost var w := Now();
      ghost var es := Others(busy);
      assert Now() == EnvRun(w, es);
      EnvExplains(limits, w, es);
      EnvRunPauses(w, es, busy);
      log := Events(es);
    }

    /** addClientPeer, some time after the section that installed the connection. */
    method AddToList(client: ClientId, hex: PeerHex) returns (ghost es: seq<Env>)
      requires Shape() && client in clients
      modifies this`activePeers, this`peerWrappers, this`peerOwners, this`claimed, this`pendingQueries, clients.Values
      ensures Reg() == RegRun(old(Reg()), es) && pendingQueries == PendRun(old(pendingQueries), es)
      ensures Lists() == AddPeer(ListRun(old(Lists()), es), client, hex) && Spares(es, {client})
      ensures hex in clients[client].peers
    {
      es := Others({client});
      clients[client].AddClientPeer(hex);
      assert forall k :: k in clients && k != client ==> clients[k] != clients[client];
    }

    /** installPeer with an owner, and then addClientPeer: together one atomic claim. */
    method ClaimPeer(client: ClientId, peer: Peer, closed: bool) returns (outcome: InstallOutcome, ghost log: seq<Event>)
      requires Shape() && client in clients && clients[client].phase.Serving?
      requires |clients[client].peers| < limits.maxPeers && peer !in retired && Unowned(Reg(), peer.id)
      modifies this`activePeers, this`peerWrappers, this`peerOwners, this`claimed, this`pendingQueries, clients.Values
      ensures outcome == Install(old(Reg()), peer, Some(client), closed).1
      ensures Explains(limits, old(Now()), Now(), log)
      ensures Own(log) == if outcome == Installed then [Event.Claim(client, peer, closed)] else []
      ensures outcome != Installed ==> Get(activePeers, peer.id) != Some(peer) && clients[client].State() == old(clients[client].State())
      ensures outcome != Installed ==> activePeers == old(activePeers)
      ensures outcome == Installed ==>
        Get(activePeers, peer.id) == Some(peer) && Get(peerOwners, peer.id) == Some(Some(client)) && peer.id in clients[client].peers
    {
      hide Explains, Own, Run, Legal, Install, RegRun, PendRun, ListRun, AddPeer, Unowned;
      ghost var w := Now();
      NoSteps(limits, w, peer.id);
      InstallFacts(w.reg, peer, client, closed);
      outcome := InstallPeer(peer, Some(client), closed);
      log := [];
      if outcome == Installed {
        ghost var r := Reg();
        ghost var es := AddToList(client, peer.id);
        InstalledStays(r, es, peer.id);
        log := ClaimIsAtomic(limits, w, client, peer, closed, es);
      }
    }

    // -------------------------------------------------------------- connecting

    /** The branch of both connect handlers for an id that is already installed. */
    method ClaimExisting(client: ClientId, hex: PeerHex, ping: bool) returns (reply: Reply, ghost log: seq<Event>)
      requires Good() && client in clients && clients[client].phase.Serving? && hex in activePeers
      modifies this`activePeers, this`peerWrappers, this`peerOwners, this`claimed, this`pendingQueries, clients.Values
      ensures Good() && Explains(limits, old(Now()), Now(), log)
      ensures Get(activePeers, hex) == Get(old(activePeers), hex)
      ensures reply == Connected ==> Get(peerOwners, hex) == Some(Some(client)) && hex in clients[client].peers
      ensures reply == Connected ==>
        Own(log) == if old(peerOwners)[hex] == Some(client) then [] else [Event.Claim(client, old(activePeers)[hex], false)]
      ensures reply != Connected ==> Own(log) == []
      ensures reply == ReplyForExisting(old(peerOwners)[hex], client, |old(clients[client].peers)| < limits.maxPeers, ping)
    {
      hide Valid;
      ghost var w := Now();
      ListedIffOwned(limits, w, client, hex);
      var existing, existingOwner := activePeers[hex], peerOwners[hex];
      if existingOwner != None && existingOwner != Some(client) {
        return OwnedByAnother, [];
      }
      if existingOwner == None && |clients[client].peers| >= limits.maxPeers {
        return PeerLimit, [];
      }
      log := Pause({client});
      RunKeepsValid(limits, w, log);
      if !ping {
        return NotLive, log;
      }
      reply := Connected;
      if existingOwner == None {
        ghost var w1 := Now();
        ghost var claim;
        var outcome;
        outcome, claim := ClaimPeer(client, existing, false);
        if outcome != Installed {
          assert false;
        }
        ExplainsConcat(limits, w, w1, Now(), log, claim);
        log := log + claim;
        RunKeepsValid(limits, w, log);
      }
    }

    /** RegisterClient. The gateway may hand a new connection to installPeer(peer, nil) first. */
    method Register(attempt: Attempt, busy: set<ClientId>) returns (ghost log: seq<Event>)
      requires Shape() && AttemptSound(attempt, retired)
      modifies this`activePeers, this`peerWrappers, this`peerOwners, this`claimed, this`pendingQueries, clients.Values
      ensures Explains(limits, old(Now()), Now(), log) && Own(log) == []
      ensures Paused(old(Now()), Now(), busy)
    {
      hide Explains, Own, Run, Legal, Install, RegEnv, PendEnv, ListEnv, RegRun, PendRun, ListRun;
      ghost var w := Now();
      ghost var es := Others(busy);
      assert Now() == EnvRun(w, es);
      if attempt.peer.Some? && attempt.announced {
        var e := Inbound(attempt.peer.value, attempt.closedAtOnce);
        var _ := Perform(e, busy);
        EnvRunSnoc(w, es, e);
        es := es + [e];
        ghost var more := Others(busy);
        EnvRunConcat(w, es, more);
        SparesConcat(es, more, busy);
        es := es + more;
      }
      EnvExplains(limits, w, es);
      EnvRunPauses(w, es, busy);
      log := Events(es);
    }

    /** One registration and its liveness ping; a connection that does not answer is detached. */
    method TryAttempt(client: ClientId, hex: PeerHex, attempt: Attempt) returns (live: bool, ghost log: seq<Event>)
      requires Shape() && client in clients && Unowned(Reg(), hex)
      requires AttemptSound(attempt, retired) && attempt.peer.Some? && attempt.peer.value.id == hex
      modifies this, clients.Values
      ensures Explains(limits, old(Now()), Now(), log) && OnlyDetaches(Own(log), hex)
      ensures live <==> attempt.ping
      ensures live ==> Own(log) == [] && Unowned(Reg(), hex) && retired == old(retired)
      ensures !live ==> Get(activePeers, hex) != attempt.peer && old(retired) <= retired <= old(retired) + {attempt.peer.value}
      ensures clients[client].State() == old(clients[client].State())
    {
      ghost var w := Now();
      log := Register(attempt, {client});
      assert Lists()[client] == w.lists[client];
      assert hex in activePeers ==> Get(peerOwners, hex) == Some(None);
      live := attempt.ping;
      if !live {
        ghost var w1 := Now();
        ghost var detach;
        var owner, removed;
        owner, removed, detach := DetachPeerLocked(hex, attempt.peer.value, {client});
        ExplainsConcat(limits, w, w1, Now(), log, detach);
        log := log + detach;
      }
    }

    /** The end of both connect handlers: take ownership of a live connection, or undo. */
    method InstallOrRollBack(client: ClientId, hex: PeerHex, attempt: Attempt) returns (reply: Reply, ghost log: seq<Event>)
      requires Shape() && client in clients && clients[client].phase.Serving? && |clients[client].peers| < limits.maxPeers
      requires attempt.peer.Some? && attempt.peer.value.id == hex && attempt.peer.value !in retired && Unowned(Reg(), hex)
      modifies this, clients.Values
      ensures Explains(limits, old(Now()), Now(), log)
      ensures reply == Connected ==> Own(log) == [Event.Claim(client, attempt.peer.value, attempt.closedLater)]
      ensures reply == Connected ==>
        Get(activePeers, hex) == attempt.peer && Get(peerOwners, hex) == Some(Some(client)) && hex in clients[client].peers
      ensures reply != Connected ==> reply == OwnershipFailed && Own(log) == [] && Get(activePeers, hex) != attempt.peer
      ensures reply != Connected ==> clients[client].State() == old(clients[client].State())
      ensures reply == OwnershipFailed <==> if hex in old(activePeers) then old(activePeers)[hex] != attempt.peer.value else attempt.closedLater
      ensures reply == OwnershipFailed ==> hex in activePeers || attempt.closedLater
    {
      ghost var w := Now();
      var outcome;
      outcome, log := ClaimPeer(client, attempt.peer.value, attempt.closedLater);
      reply := Connected;
      if outcome != Installed {
        ghost var w1 := Now();
        ghost var detach;
        var owner, removed;
        owner, removed, detach := DetachPeerLocked(hex, attempt.peer.value, {client});
        ExplainsConcat(limits, w, w1, Now(), log, detach);
        log := log + detach;
        reply := OwnershipFailed;
      }
    }

    /** Register, ping, and install or undo. */
    method ConnectNew(client: ClientId, hex: PeerHex, attempt: Attempt) returns (reply: Reply, ghost log: seq<Event>)
      requires Shape() && client in clients && clients[client].phase.Serving? && Unowned(Reg(), hex)
      requires |clients[client].peers| < limits.maxPeers && AttemptSound(attempt, retired)
      requires attempt.peer.Some? && attempt.peer.value.id == hex
      modifies this, clients.Values
      ensures Explains(limits, old(Now()), Now(), log)
      ensures reply == Connected ==> Own(log) == [Event.Claim(client, attempt.peer.value, attempt.closedLater)]
      ensures reply == Connected ==>
        Get(activePeers, hex) == attempt.peer && Get(peerOwners, hex) == Some(Some(client)) && hex in clients[client].peers
      ensures reply != Connected ==> OnlyDetaches(Own(log), hex) && Get(activePeers, hex) != attempt.peer
      ensures if attempt.ping then reply in {Connected, OwnershipFailed} else reply == NoPing
      ensures reply == OwnershipFailed ==> hex in activePeers || attempt.closedLater
    {
      ghost var w := Now();
      var live;
      live, log := TryAttempt(client, hex, attempt);
      reply := NoPing;
      if live {
        ghost var w1 := Now();
        ghost var claim;
        reply, claim := InstallOrRollBack(client, hex, attempt);
        ExplainsConcat(limits, w, w1, Now(), log, claim);
        log := log + claim;
      }
    }

    /** handleADNLConnect, from the lifecycle lock on. */
    method Connect(client: ClientId, hex: PeerHex, pingExisting: bool, attempt: Attempt) returns (reply: Reply, ghost log: seq<Event>)
      requires Good() && client in clients && clients[client].phase.Serving?
      requires AttemptSound(attempt, retired) && (attempt.peer.Some? ==> attempt.peer.value.id == hex)
      modifies this, clients.Values
      ensures Good() && Explains(limits, old(Now()), Now(), log)
      ensures reply == Connected ==>
        Get(peerOwners, hex) == Some(Some(client)) && hex in clients[client].peers && hex in activePeers
      ensures reply == Connected ==> EndsInClaim(Own(log), client, activePeers[hex])
      ensures reply != Connected ==> OwnedKept(old(Now()), Now()) && OnlyDetaches(Own(log), hex)
      ensures reply == NoPing || reply == OwnershipFailed ==> Get(activePeers, hex) != attempt.peer
      ensures hex in old(activePeers) ==>
        reply == ReplyForExisting(old(peerOwners)[hex], client, |old(clients[client].peers)| < limits.maxPeers, pingExisting)
      ensures hex !in old(activePeers) ==>
        if |old(clients[client].peers)| >= limits.maxPeers then reply == PeerLimit
        else if attempt.peer.None? then reply == RegisterFailed
        else if !attempt.ping then reply == NoPing
        else reply == Connected || (reply == OwnershipFailed && (hex in activePeers || attempt.closedLater))
    {
      hide Valid, OwnedKept, Explains, Own, OnlyDetaches;
      ghost var w := Now();
      ListedIffOwned(limits, w, client, hex);
      NoSteps(limits, w, hex);
      if hex in activePeers {
        reply, log := ClaimExisting(client, hex, pingExisting);
      } else if |clients[client].peers| >= limits.maxPeers {
        reply, log := PeerLimit, [];
      } else if attempt.peer == None {
        reply, log := RegisterFailed, [];
      } else {
        reply, log := ConnectNew(client, hex, attempt);
        ExplainedValid(limits, w, Now(), log);
      }
      if reply != Connected {
        DetachesKeepOwned(limits, w, Now(), log, hex);
      }
    }

    /** One endpoint of handleADNLConnectByADNL; on a live one, the rest of the handler. */
    method TryEndpoint(client: ClientId, hex: PeerHex, attempt: Attempt, ghost w: World, ghost soFar: seq<Event>)
      returns (live: bool, reply: Reply, ghost log: seq<Event>)
      requires Shape() && client in clients && clients[client].phase.Serving? && Unowned(Reg(), hex)
      requires |clients[client].peers| < limits.maxPeers && AttemptSound(attempt, retired)
      requires attempt.peer.Some? && attempt.peer.value.id == hex
      requires Explains(limits, w, Now(), soFar) && OnlyDetaches(Own(soFar), hex)
      requires Valid(limits, w) && Unowned(w.reg, hex)
      modifies this, clients.Values
      ensures Explains(limits, w, Now(), log)
      ensures reply == Connected ==> live && EndsInClaim(Own(log), client, attempt.peer.value)
      ensures reply == Connected ==>
        Get(activePeers, hex) == attempt.peer && Get(peerOwners, hex) == Some(Some(client)) && hex in clients[client].peers
      ensures reply != Connected ==> OnlyDetaches(Own(log), hex) && Unowned(Reg(), hex)
      ensures reply != Connected ==> clients[client].State() == old(clients[client].State())
      ensures !live ==> reply == NoLiveAddress && retired <= old(retired) + {attempt.peer.value}
      ensures live <==> attempt.ping
      ensures live ==> reply == Connected || (reply == OwnershipFailed && (hex in activePeers || attempt.closedLater))
    {
      hide Valid, OwnedKept, Explains, Own, OnlyDetaches, EndsInClaim, Enabled, Apply, Run, Legal;
      ghost var w1 := Now();
      live, log := TryAttempt(client, hex, attempt);
      ghost var w2 := Now();
      ExplainsConcat(limits, w, w1, w2, soFar, log);
      DetachesConcat(Own(soFar), Own(log), hex);
      log := soFar + log;
      reply := NoLiveAddress;
      if live {
        ghost var claim;
        reply, claim := InstallOrRollBack(client, hex, attempt);
        ExplainsConcat(limits, w, w2, Now(), log, claim);
        if reply == Connected {
          ClaimLast(Own(log), client, attempt.peer.value, attempt.closedLater);
        } else {
          NoSteps(limits, w, hex);
          DetachesConcat(Own(log), Own(claim), hex);
        }
        log := log + claim;
      }
      if reply != Connected {
        DetachesKeepOwned(limits, w, Now(), log, hex);
      }
    }

    /** handleADNLConnectByADNL: up to eight endpoints, the first live one wins. */
    method ConnectByADNL(client: ClientId, hex: PeerHex, pingExisting: bool, attempts: seq<Attempt>)
      returns (reply: Reply, ghost log: seq<Event>)
      requires Good() && client in clients && clients[client].phase.Serving?
      requires forall a :: a in attempts ==> AttemptSound(a, retired) && (a.peer.Some? ==> a.peer.value.id == hex)
      requires ClosedStaysClosed(attempts)
      modifies this, clients.Values
      ensures Good() && Explains(limits, old(Now()), Now(), log)
      ensures reply == Connected ==>
        Get(peerOwners, hex) == Some(Some(client)) && hex in clients[client].peers && hex in activePeers
      ensures reply == Connected ==> EndsInClaim(Own(log), client, activePeers[hex])
      ensures reply != Connected ==> OwnedKept(old(Now()), Now()) && OnlyDetaches(Own(log), hex)
      ensures hex in old(activePeers) ==>
        reply == ReplyForExisting(old(peerOwners)[hex], client, |old(clients[client].peers)| < limits.maxPeers, pingExisting)
      ensures hex !in old(activePeers) ==>
        if |old(clients[client].peers)| >= limits.maxPeers then reply == PeerLimit
        else reply in {NoLiveAddress, Connected, OwnershipFailed}
      ensures hex !in old(activePeers) && |old(clients[client].peers)| < limits.maxPeers ==>
        (reply == NoLiveAddress <==> forall i :: 0 <= i < |attempts| ==> attempts[i].peer.None? || !attempts[i].ping)
      ensures hex !in old(activePeers) && reply == Connected ==>
        exists i :: 0 <= i < |attempts| && LowestLive(attempts, i) && Get(activePeers, hex) == attempts[i].peer
      ensures hex !in old(activePeers) && reply == OwnershipFailed ==>
        exists i :: 0 <= i < |attempts| && LowestLive(attempts, i) && (hex in activePeers || attempts[i].closedLater)
    {
      hide Valid, OwnedKept, Explains, Own, OnlyDetaches, LowestLive;
      ghost var w := Now();
      ListedIffOwned(limits, w, client, hex);
      NoSteps(limits, w, hex);
      if hex in activePeers {
        reply, log := ClaimExisting(client, hex, pingExisting);
      } else if |clients[client].peers| >= limits.maxPeers {
        reply, log := PeerLimit, [];
      } else {
        reply, log := TryEndpoints(client, hex, attempts);
        ExplainedValid(limits, w, Now(), log);
      }
      if reply != Connected {
        DetachesKeepOwned(limits, w, Now(), log, hex);
      }
    }

    method TryEndpoints(client: ClientId, hex: PeerHex, attempts: seq<Attempt>) returns (reply: Reply, ghost log: seq<Event>)
      requires Good() && client in clients && clients[client].phase.Serving? && |clients[client].peers| < limits.maxPeers
      requires Unowned(Reg(), hex)
      requires forall a :: a in attempts ==> AttemptSound(a, retired) && (a.peer.Some? ==> a.peer.value.id == hex)
      requires ClosedStaysClosed(attempts)
      modifies this, clients.Values
      ensures Explains(limits, old(Now()), Now(), log)
      ensures reply == Connected ==>
        Get(peerOwners, hex) == Some(Some(client)) && hex in clients[client].peers && hex in activePeers
      ensures reply == Connected ==> EndsInClaim(Own(log), client, activePeers[hex])
      ensures reply != Connected ==> OnlyDetaches(Own(log), hex)
      ensures reply in {NoLiveAddress, Connected, OwnershipFailed}
      ensures reply == NoLiveAddress <==> forall i :: 0 <= i < |attempts| ==> attempts[i].peer.None? || !attempts[i].ping
      ensures reply == Connected ==>
        exists i :: 0 <= i < |attempts| && LowestLive(attempts, i) && Get(activePeers, hex) == attempts[i].peer
      ensures reply == OwnershipFailed ==>
        exists i :: 0 <= i < |attempts| && LowestLive(attempts, i) && (hex in activePeers || attempts[i].closedLater)
    {
      hide Valid, OwnedKept, Explains, Own, OnlyDetaches, EndsInClaim;
      ghost var w := Now();
      NoSteps(limits, w, hex);
      log := [];
      reply := NoLiveAddress;
      for i := 0 to |attempts|
        invariant forall j :: 0 <= j < i ==> attempts[j].peer.None? || !attempts[j].ping
        invariant Explains(limits, w, Now(), log) && OnlyDetaches(Own(log), hex)
        invariant Unowned(Reg(), hex) && clients[client].State() == old(clients[client].State())
        invariant forall j :: i <= j < |attempts| ==> AttemptSound(attempts[j], retired)
        invariant reply == NoLiveAddress
      {
        if attempts[i].peer != None {
          var live;
          live, reply, log := TryEndpoint(client, hex, attempts[i], w, log);
          if live {
            assert LowestLive(attempts, i);
            break;
          }
        }
      }
    }

    // -------------------------------------------------------------- disconnecting

    /** peerDisconnectHandler: runs some time after the connection closed. */
    method DisconnectCallback(peer: Peer) returns (notify: bool, owner: Option<ClientId>, ghost log: seq<Event>)
      requires Good()
      modifies this, clients.Values
      ensures Good() && Explains(limits, old(Now()), Now(), log)
      ensures notify <==> Get(old(activePeers), peer.id) == Some(peer)
      ensures if notify then Own(log) == [Event.Detach(peer.id, peer)] && owner == old(peerOwners)[peer.id]
              else Now() == old(Now())
    {
      ghost var w := Now();
      owner, notify, log := DetachPeerLocked(peer.id, peer, {});
      RunKeepsValid(limits, w, log);
    }

    /** handleADNLDisconnect */
    method Disconnect(client: ClientId, hex: PeerHex) returns (disconnected: bool, ghost log: seq<Event>)
      requires Good() && client in clients && clients[client].phase.Serving?
      modifies this, clients.Values
      ensures Good() && Explains(limits, old(Now()), Now(), log)
      ensures disconnected <==> hex in old(clients[client].peers)
      ensures if disconnected then hex in old(activePeers) && Own(log) == [Event.Detach(hex, old(activePeers)[hex])] && hex !in activePeers
              else Now() == old(Now())
    {
      hide Valid;
      ghost var w := Now();
      ListedIffOwned(limits, w, client, hex);
      disconnected := clients[client].OwnsPeer(hex);
      log := [];
      if disconnected {
        log := Pause({client});
        if hex !in activePeers {
          assert false;
        } else {
          ghost var w1 := Now();
          ghost var detach;
          var owner, removed;
          owner, removed, detach := DetachPeerLocked(hex, activePeers[hex], {client});
          if !removed {
            assert false;
          }
          ExplainsConcat(limits, w, w1, Now(), log, detach);
          log := log + detach;
        }
        RunKeepsValid(limits, w, log);
      }
    }

    // -------------------------------------------------------------- query handlers

    /** handleADNLSetQueryHandler */
    method SetQueryHandler(client: ClientId, hex: PeerHex) returns (enabled: bool, ghost log: seq<Event>)
      requires Good() && client in clients && clients[client].phase.Serving?
      modifies this, clients.Values
      ensures Good() && Explains(limits, old(Now()), Now(), log)
      ensures enabled <==> hex in old(clients[client].peers)
      ensures Own(log) == if enabled then [Event.ArmPeer(client, hex)] else []
      ensures enabled ==> hex in activePeers && Get(peerQueries, hex) == Some(Closure(activePeers[hex], client))
    {
      hide Valid, Explains, Own, Run, Legal, OnlyDetaches, Apply;
      ghost var w := Now();
      ListedIffOwned(limits, w, client, hex);
      NoSteps(limits, w, hex);
      enabled := false;
      log := [];
      if hex !in activePeers {
        return;
      }
      var peer := activePeers[hex];
      enabled := clients[client].OwnsPeer(hex);
      if !enabled {
        return;
      }
      log := Pause({client});
      ghost var w1 := Now();
      assert w1.lists[client] == w.lists[client];
      StoreHandler(client, hex, peer);
      log := Stepped(w, w1, log, ArmPeer(client, hex));
    }

    /** The section that stores the closure. */
    method StoreHandler(client: ClientId, hex: PeerHex, peer: Peer)
      requires Get(activePeers, hex) == Some(peer)
      modifies this`peerQueries, this`armed
      ensures Now() == Apply(old(Now()), Event.ArmPeer(client, hex))
      ensures Get(peerQueries, hex) == Some(Closure(peer, client))
    {
      peerQueries := peerQueries[hex := Closure(peer, client)];
      armed := armed + {Closure(peer, client)};
    }

    /** The end of a handler that has one effect. */
    lemma Stepped(w: World, w1: World, log: seq<Event>, ev: Event) returns (longer: seq<Event>)
      requires Valid(limits, w) && Explains(limits, w, w1, log) && Enabled(limits, w1, ev) && !ev.Env?
      ensures Explains(limits, w, Apply(w1, ev), longer) && Own(longer) == Own(log) + [ev]
      ensures Valid(limits, Apply(w1, ev))
    {
      ExplainsStep(limits, w1, ev);
      ExplainsConcat(limits, w, w1, Apply(w1, ev), log, [ev]);
      longer := log + [ev];
      RunKeepsValid(limits, w, longer);
    }

    /** The body of both query closures. A closure that was handed out may run at any later time. */
    method OnQuery(closure: Closure, query: QueryId, deadline: nat) returns (recorded: bool, ghost log: seq<Event>)
      requires Good() && closure in armed
      modifies this, clients.Values
      ensures Good() && Explains(limits, old(Now()), Now(), log)
      ensures recorded <==> Get(old(activePeers), closure.peer.id) == Some(closure.peer)
      ensures Own(log) == if recorded then [Event.Query(closure, query, deadline)] else []
      ensures recorded ==> Get(pendingQueries, query) == Some(Pending(closure.peer, Some(closure.client), deadline))
    {
      hide Valid;
      ghost var w := Now();
      log := [];
      recorded := closure.peer.id in activePeers && activePeers[closure.peer.id] == closure.peer;
      if recorded {
        log := Pause({});
        ghost var w1 := Now();
        pendingQueries := pendingQueries[query := Pending(closure.peer, Some(closure.client), deadline)];
        log := Stepped(w, w1, log, Query(closure, query, deadline));
      }
    }

    // -------------------------------------------------------------- overlays

    /** handleOverlayJoin. The receiver and the attachment may fail. */
    method OverlayJoin(client: ClientId, overlay: OverlayHex, hex: PeerHex, attaches: bool) returns (joined: bool, ghost log: seq<Event>)
      requires Good() && client in clients && clients[client].phase.Serving?
      modifies this, clients.Values
      ensures Good() && Explains(limits, old(Now()), Now(), log)
      ensures Own(log) == [] || Own(log) == [Event.Join(client, overlay, hex)]
      ensures joined ==> Get(overlayToPeer, overlay) == Some(hex) && overlay in activeOverlays && activeOverlays[overlay].client == client
      ensures joined ==> (Own(log) == [] <==> overlay in old(clients[client].overlays))
      ensures !joined ==> Own(log) == []
      ensures joined <==>
        && |old(clients[client].overlays)| < limits.maxOverlays && hex in old(clients[client].peers)
        && if overlay in old(activeOverlays)
           then overlay in old(clients[client].overlays) && Get(old(overlayToPeer), overlay) == Some(hex)
           else attaches
    {
      hide Valid, Explains, Own;
      ghost var w := Now();
      NoSteps(limits, w, hex);
      joined, log := false, [];
      ListedIffOwned(limits, w, client, hex);
      ListedOverlay(limits, w, client, overlay);
      if |clients[client].overlays| >= limits.maxOverlays || hex !in activePeers {
        return;
      }
      var owns := clients[client].OwnsPeer(hex);
      if !owns {
        return;
      }
      log := Pause({client});
      ghost var w1 := Now();
      assert w1.lists[client] == w.lists[client];
      ExplainedValid(limits, w, w1, log);
      if overlay in activeOverlays {
        owns := clients[client].OwnsOverlay(overlay);
        joined := owns && overlay in overlayToPeer && overlayToPeer[overlay] == hex;
        return;
      }
      if !attaches {
        return;
      }
      ghost var more := InsertOverlay(client, overlay, hex);
      joined := true;
      ExplainsConcat(limits, w, w1, Now(), log, more);
      log := log + more;
      ExplainedValid(limits, w, Now(), log);
    }

    /** The two map sections and the list section of a join: together one atomic step. */
    method InsertOverlay(client: ClientId, overlay: OverlayHex, hex: PeerHex) returns (ghost log: seq<Event>)
      requires Shape() && client in clients && hex in activePeers && Enabled(limits, Now(), Event.Join(client, overlay, hex))
      modifies this, clients.Values
      ensures Explains(limits, old(Now()), Now(), log) && Own(log) == [Event.Join(client, overlay, hex)]
      ensures Get(overlayToPeer, overlay) == Some(hex) && overlay in activeOverlays && activeOverlays[overlay].client == client
    {
      hide Explains, Own, Run, Legal, RegRun, PendRun, ListRun, Spares, Enabled;
      ghost var w := Now();
      activeOverlays := activeOverlays[overlay := Attachment(activePeers[hex], client, None)];
      overlayToPeer := overlayToPeer[overlay := hex];
      ghost var es := AppendOverlay(client, overlay);
      log := OverlayStepIsAtomic(limits, w, Join(client, overlay, hex), es);
    }

    method AppendOverlay(client: ClientId, overlay: OverlayHex) returns (ghost es: seq<Env>)
      requires Shape() && client in clients
      modifies this`activePeers, this`peerWrappers, this`peerOwners, this`claimed, this`pendingQueries, clients.Values
      ensures Reg() == RegRun(old(Reg()), es) && pendingQueries == PendRun(old(pendingQueries), es) && Spares(es, {client})
      ensures Lists() == ListRun(old(Lists()), es)[client := old(Lists())[client].(overlays := old(Lists())[client].overlays + [overlay])]
    {
      ghost var l := Lists();
      es := Others({client});
      ServingStays(l, es, {client});
      assert clients[client].State() == Lists()[client];
      clients[client].overlays := clients[client].overlays + [overlay];
      assert forall k :: k in clients && k != client ==> clients[k] != clients[client];
    }

    /** handleOverlayLeave */
    method OverlayLeave(client: ClientId, overlay: OverlayHex) returns (left: bool, ghost log: seq<Event>)
      requires Good() && client in clients && clients[client].phase.Serving?
      modifies this, clients.Values
      ensures Good() && Explains(limits, old(Now()), Now(), log)
      ensures left <==> overlay in old(clients[client].overlays)
      ensures Own(log) == if left then [Event.Leave(client, overlay)] else []
      ensures left ==> overlay !in activeOverlays && overlay !in overlayToPeer
    {
      hide Valid, Explains, Own;
      ghost var w := Now();
      NoSteps(limits, w, 0);
      log := [];
      ListedOverlay(limits, w, client, overlay);
      left := clients[client].OwnsOverlay(overlay);
      if left {
        if overlay !in activeOverlays {
          assert false;
        } else {
          log := RemoveOverlay(client, overlay);
          ExplainedValid(limits, w, Now(), log);
        }
      }
    }

    method RemoveOverlay(client: ClientId, overlay: OverlayHex) returns (ghost log: seq<Event>)
      requires Shape() && client in clients && Enabled(limits, Now(), Event.Leave(client, overlay)) && NoDup(clients[client].overlays)
      modifies this, clients.Values
      ensures Explains(limits, old(Now()), Now(), log) && Own(log) == [Event.Leave(client, overlay)]
      ensures overlay !in activeOverlays && overlay !in overlayToPeer
    {
      hide Explains, Own, Run, Legal, Without, NoDup, Valid, RegRun, PendRun, ListRun, Spares, Enabled;
      ghost var w := Now();
      activeOverlays := activeOverlays - {overlay};
      ghost var es := CutFromList(client, overlay);
      overlayToPeer := overlayToPeer - {overlay};
      log := OverlayStepIsAtomic(limits, w, Leave(client, overlay), es);
    }

    method CutFromList(client: ClientId, overlay: OverlayHex) returns (ghost es: seq<Env>)
      requires Shape() && client in clients && NoDup(clients[client].overlays)
      modifies this`activePeers, this`peerWrappers, this`peerOwners, this`claimed, this`pendingQueries, clients.Values
      ensures Reg() == RegRun(old(Reg()), es) && pendingQueries == PendRun(old(pendingQueries), es) && Spares(es, {client})
      ensures Lists() == ListRun(old(Lists()), es)[client := old(Lists())[client].(overlays := Without(old(Lists())[client].overlays, {overlay}))]
    {
      ghost var l := Lists();
      es := Others({client});
      ServingStays(l, es, {client});
      assert clients[client].State() == Lists()[client];
      clients[client].CutOverlay(overlay);
      assert forall k :: k in clients && k != client ==> clients[k] != clients[client];
    }

    /** handleOverlaySetQueryHandler */
    method OverlaySetQueryHandler(client: ClientId, overlay: OverlayHex, hex: PeerHex) returns (enabled: bool, ghost log: seq<Event>)
      requires Good() && client in clients && clients[client].phase.Serving?
      modifies this, clients.Values
      ensures Good() && Explains(limits, old(Now()), Now(), log)
      ensures enabled <==> overlay in old(clients[client].overlays) && Get(old(overlayToPeer), overlay) == Some(hex)
      ensures Own(log) == if enabled then [Event.ArmOverlay(client, overlay)] else []
      ensures enabled ==>
        && overlay in activeOverlays && hex in activePeers
        && activeOverlays[overlay].handler == Some(Closure(activePeers[hex], client))
    {
      hide Valid, Explains, Own, Run, Legal, OnlyDetaches, NoDup, Apply;
      ghost var w := Now();
      NoSteps(limits, w, hex);
      log := [];
      enabled := false;
      ListedIffOwned(limits, w, client, hex);
      ListedOverlay(limits, w, client, overlay);
      if overlay !in activeOverlays {
        return;
      }
      var owns := clients[client].OwnsOverlay(overlay);
      if !owns || hex !in activePeers {
        return;
      }
      var peer := activePeers[hex];
      owns := clients[client].OwnsPeer(hex);
      if !owns {
        return;
      }
      log := Pause({client});
      ghost var w1 := Now();
      assert w1.lists[client] == w.lists[client];
      if overlayToPeer[overlay] != hex {
        ExplainedValid(limits, w, w1, log);
        return;
      }
      enabled := true;
      StoreOverlayHandler(client, overlay, peer);
      log := Stepped(w, w1, log, ArmOverlay(client, overlay));
    }

    /** The section that installs the closure on the overlay. */
    method StoreOverlayHandler(client: ClientId, overlay: OverlayHex, peer: Peer)
      requires overlay in activeOverlays && overlay in overlayToPeer && Get(activePeers, overlayToPeer[overlay]) == Some(peer)
      modifies this`activeOverlays, this`armed
      ensures Now() == Apply(old(Now()), Event.ArmOverlay(client, overlay))
      ensures overlay in activeOverlays && activeOverlays[overlay].handler == Some(Closure(peer, client))
    {
      activeOverlays := activeOverlays[overlay := activeOverlays[overlay].(handler := Some(Closure(peer, client)))];
      armed := armed + {Closure(peer, client)};
    }

    // -------------------------------------------------------------- client exit

    /** The peer cleanup of an exit, from the lifecycle lock on. It gets the list that TakePeers
        copied. Whatever else happens meanwhile, nothing refers to the client afterwards. */
    method ReleasePeers(client: ClientId, peerIDs: seq<PeerHex>) returns (ghost log: seq<Event>)
      requires Good() && client in clients && clients[client].phase == Leaving(peerIDs)
      modifies this, clients.Values
      ensures Good() && Explains(limits, old(Now()), Now(), log)
      ensures clients[client].phase == Released && NoTrace(Now(), client)
      ensures |Own(log)| > 0 && Own(log)[|Own(log)| - 1] == Event.Release(client)
      ensures forall i :: 0 <= i < |Own(log)| - 1 ==> Own(log)[i].Detach? && Own(log)[i].hex in peerIDs
    {
      hide Valid, Explains, Own, NoTrace, Run, Legal, OnlyDetaches, Apply;
      ghost var w := Now();
      NoSteps(limits, w, 0);
      log := [];
      for i := 0 to |peerIDs|
        invariant Good() && Explains(limits, w, Now(), log) && clients[client].phase == Leaving(peerIDs)
        invariant forall j :: 0 <= j < i ==> Get(peerOwners, peerIDs[j]) != Some(Some(client))
        invariant forall j :: 0 <= j < |Own(log)| ==> Own(log)[j].Detach? && Own(log)[j].hex in peerIDs
      {
        ghost var w1 := Now();
        ghost var more := ReleaseOne(client, peerIDs[i], peerIDs[..i]);
        ExplainsConcat(limits, w, w1, Now(), log, more);
        log := log + more;
      }
      ghost var w2 := Now();
      ExplainedValid(limits, w, w2, log);
      LeavingOwnsTaken(limits, w2, client, peerIDs);
      MarkReleased(client);
      log := Stepped(w, w2, log, Release(client));
      ReleasedNoTrace(limits, Now(), client);
    }

    /** The peer cleanup has ended. */
    method MarkReleased(client: ClientId)
      requires Shape() && client in clients
      modifies clients.Values
      ensures Now() == Apply(old(Now()), Event.Release(client)) && clients[client].phase == Released
    {
      clients[client].phase := Released;
      assert forall k :: k in clients && k != client ==> clients[k] != clients[client];
    }

    /** One round of the cleanup loop. */
    method ReleaseOne(client: ClientId, hex: PeerHex, ghost done: seq<PeerHex>) returns (ghost log: seq<Event>)
      requires Good() && client in clients && clients[client].phase.Leaving?
      requires forall j :: 0 <= j < |done| ==> Get(peerOwners, done[j]) != Some(Some(client))
      modifies this, clients.Values
      ensures Good() && Explains(limits, old(Now()), Now(), log) && clients[client].phase == old(clients[client].phase)
      ensures Get(peerOwners, hex) != Some(Some(client))
      ensures forall j :: 0 <= j < |done| ==> Get(peerOwners, done[j]) != Some(Some(client))
      ensures Own(log) == [] || (|Own(log)| == 1 && Own(log)[0].Detach? && Own(log)[0].hex == hex)
    {
      hide Valid, Explains, Own;
      ghost var w := Now();
      log := Pause({client});
      ghost var w1 := Now();
      assert w1.lists[client] == w.lists[client];
      assert Own(log) + [] == [];
      if hex in activePeers {
        ghost var detach;
        var owner, removed;
        owner, removed, detach := DetachPeerLocked(hex, activePeers[hex], {client});
        ExplainsConcat(limits, w, w1, Now(), log, detach);
        log := log + detach;
      }
      ExplainedValid(limits, w, Now(), log);
      SameKeys(limits, Now(), hex);
      forall j | 0 <= j < |done| ensures Get(peerOwners, done[j]) != Some(Some(client)) {
        LeavingGainsNothing(limits, w, Now(), log, client, done[j]);
      }
    }

    /** The overlay cleanup of an exit. */
    method ReleaseOverlayList(client: ClientId) returns (closed: nat)
      requires client in clients && Shape()
      modifies this, clients.Values
      ensures activeOverlays == old(activeOverlays) - Elements(old(clients[client].overlays))
      ensures overlayToPeer == old(overlayToPeer) - Elements(old(clients[client].overlays))
      ensures clients[client].overlays == [] && clients[client].peers == old(clients[client].peers)
      ensures closed <= |old(clients[client].overlays)|
    {
      var overlayIDs := clients[client].overlays;
      clients[client].overlays := [];
      closed := 0;
      for i := 0 to |overlayIDs|
        invariant activeOverlays == old(activeOverlays) - Elements(overlayIDs[..i])
        invariant overlayToPeer == old(overlayToPeer) - Elements(overlayIDs[..i])
        invariant clients[client].overlays == [] && clients[client].peers == old(clients[client].peers)
        invariant closed <= i
      {
        assert Elements(overlayIDs[..i + 1]) == Elements(overlayIDs[..i]) + {overlayIDs[i]};
        if overlayIDs[i] in activeOverlays {
          activeOverlays := activeOverlays - {overlayIDs[i]};
          closed := closed + 1;
        }
        overlayToPeer := overlayToPeer - {overlayIDs[i]};
      }
      assert overlayIDs[..|overlayIDs|] == overlayIDs;
    }
  }

  function Elements(s: seq<OverlayHex>): set<OverlayHex> {
    set ov | ov in s
  }
}
