/** Whole runs: any interleaving of locked steps, gateway inserts, sweeps, answers and exits. */
module LifecycleRuns {
  import opened Basics
  import opened Lifecycle
  import opened LifecycleSteps

  function Run(w: World, log: seq<Event>): World {
    if log == [] then w else Apply(Run(w, log[..|log| - 1]), log[|log| - 1])
  }

  /** Every step of the run passes the checks of the source in the state where it is taken. */
  ghost predicate Legal(limits: Limits, w: World, log: seq<Event>) {
    log == [] || (Legal(limits, w, log[..|log| - 1]) && Enabled(limits, Run(w, log[..|log| - 1]), log[|log| - 1]))
  }

  lemma RunSnoc(limits: Limits, w: World, log: seq<Event>, ev: Event)
    ensures Run(w, log + [ev]) == Apply(Run(w, log), ev)
    ensures Legal(limits, w, log + [ev]) <==> Legal(limits, w, log) && Enabled(limits, Run(w, log), ev)
  {
    assert (log + [ev])[..|log|] == log;
  }

  lemma {:induction false} RunConcat(limits: Limits, w: World, a: seq<Event>, b: seq<Event>)
    ensures Run(w, a + b) == Run(Run(w, a), b)
    ensures Legal(limits, w, a + b) <==> Legal(limits, w, a) && Legal(limits, Run(w, a), b)
  {
    if b == [] {
      assert a + b == a;
    } else {
      RunConcat(limits, w, a, b[..|b| - 1]);
      assert (a + b)[..|a + b| - 1] == a + b[..|b| - 1];
    }
  }

  /** A bridge before its first connection. Clients that have not connected yet do nothing. */
  ghost predicate Fresh(w: World) {
    && w.reg == Registry(map[], map[], map[], map[], map[], {})
    && w.attached == map[] && w.peerOf == map[] && w.pending == map[] && w.armed == {}
    && forall c :: c in w.lists ==> w.lists[c] == ClientState([], [], Serving)
  }

  lemma FreshValid(limits: Limits, w: World)
    requires Fresh(w)
    ensures Valid(limits, w)
  {}

  /** Invariant over runs: map keys, owners, overlays, queries, lists and limits stay in agreement. */
  lemma {:induction false} RunKeepsValid(limits: Limits, w: World, log: seq<Event>)
    requires Valid(limits, w) && Legal(limits, w, log)
    ensures Valid(limits, Run(w, log))
  {
    if log != [] {
      RunKeepsValid(limits, w, log[..|log| - 1]);
      StepKeepsValid(limits, Run(w, log[..|log| - 1]), log[|log| - 1]);
    }
  }

  /** From a fresh bridge, whatever happens: no client's lists exceed its limits, although the check and
      the append are sections apart. */
  lemma WithinLimits(limits: Limits, w: World, log: seq<Event>, c: ClientId)
    requires Fresh(w) && Legal(limits, w, log) && c in w.lists
    ensures
      var lists := Run(w, log).lists;
      c in lists && |lists[c].peers| <= limits.maxPeers && |lists[c].overlays| <= limits.maxOverlays
  {
    FreshValid(limits, w);
    RunKeepsValid(limits, w, log);
    RunForward(limits, w, log);
    assert ListSound(limits, Run(w, log), c);
  }

  /** And every pending query belongs to the generation installed under its peer id, and to the client
      that owns that generation, however old the closure that filed it. */
  lemma QueriesBelong(limits: Limits, w: World, log: seq<Event>, q: QueryId)
    requires Fresh(w) && Legal(limits, w, log) && q in Run(w, log).pending
    ensures
      var w' := Run(w, log);
      var pq := w'.pending[q];
      && Get(w'.reg.active, pq.peer.id) == Some(pq.peer)
      && pq.owner.Some? && Get(w'.reg.owners, pq.peer.id) == Some(pq.owner)
  {
    FreshValid(limits, w);
    RunKeepsValid(limits, w, log);
    assert QuerySound(Run(w, log), q);
  }

  // ---------------------------------------------------------------- ownership

  ghost predicate PhaseForward(before: Phase, after: Phase) {
    match before
    case Serving => true
    case Leaving(_) => after.Released? || after == before
    case Released => after.Released?
  }

  /** What only ever grows: first owners and detached generations stay, an exit never turns back. */
  ghost predicate Forward(w: World, w': World) {
    && (forall p :: p in w.reg.claimed ==> p in w'.reg.claimed && w'.reg.claimed[p] == w.reg.claimed[p])
    && w.reg.retired <= w'.reg.retired && w.lists.Keys == w'.lists.Keys
    && (forall c :: c in w.lists ==> c in w'.lists && PhaseForward(w.lists[c].phase, w'.lists[c].phase))
    && (forall p :: p in w'.reg.claimed && p !in w.reg.claimed ==>
          w'.reg.claimed[p] in w.lists && w.lists[w'.reg.claimed[p]].phase.Serving?)
  }

  lemma ClaimForward(limits: Limits, w: World, ev: Event)
    requires ev.Claim? && KeysAgree(w) && Enabled(limits, w, ev) && Known(w, ev)
    ensures Forward(w, Apply(w, ev))
  {}

  lemma OtherForward(limits: Limits, w: World, ev: Event)
    requires !ev.Claim? && KeysAgree(w) && Enabled(limits, w, ev) && Known(w, ev)
    ensures Forward(w, Apply(w, ev))
  {}

  lemma StepForward(limits: Limits, w: World, ev: Event)
    requires KeysAgree(w) && Enabled(limits, w, ev) && Known(w, ev)
    ensures Forward(w, Apply(w, ev))
  {
    hide Enabled, Known, Forward, Apply;
    if ev.Claim? {
      ClaimForward(limits, w, ev);
    } else {
      OtherForward(limits, w, ev);
    }
  }

  lemma ForwardTransitive(a: World, b: World, c: World)
    requires Forward(a, b) && Forward(b, c)
    ensures Forward(a, c)
  {
    forall p | p in c.reg.claimed && p !in a.reg.claimed
      ensures c.reg.claimed[p] in a.lists && a.lists[c.reg.claimed[p]].phase.Serving?
    {
      assert p in b.reg.claimed ==> c.reg.claimed[p] == b.reg.claimed[p];
    }
  }

  lemma {:induction false} RunForward(limits: Limits, w: World, log: seq<Event>)
    requires Valid(limits, w) && Legal(limits, w, log)
    ensures Forward(w, Run(w, log))
  {
    if log != [] {
      var v := Run(w, log[..|log| - 1]);
      RunForward(limits, w, log[..|log| - 1]);
      RunKeepsValid(limits, w, log[..|log| - 1]);
      EnabledKnown(limits, v, log[|log| - 1]);
      StepForward(limits, v, log[|log| - 1]);
      ForwardTransitive(w, v, Run(w, log));
    }
  }

  /** A generation has at most one owner over a whole run: once owned, it stays with that client
      for as long as it is installed. */
  lemma OwnerNeverChanges(limits: Limits, w: World, log: seq<Event>, h: PeerHex, c: ClientId)
    requires Valid(limits, w) && Legal(limits, w, log)
    requires h in w.reg.active && w.reg.owners[h] == Some(c)
    ensures
      var w' := Run(w, log);
      if Get(w'.reg.active, h) == Some(w.reg.active[h])
      then h in w'.reg.owners && w'.reg.owners[h] == Some(c)
      else w.reg.active[h] in w'.reg.retired
  {
    var w' := Run(w, log);
    RunForward(limits, w, log);
    RunKeepsValid(limits, w, log);
    assert PeerSound(w, h);
    assert w.reg.active[h] in w'.reg.claimed;
    if h in w'.reg.active {
      assert PeerSound(w', h);
    }
  }

  /** A disconnect callback that arrives after its generation was detached changes nothing, however
      late: a replacement keeps its manager, owner, overlays, handler and queries. */
  lemma LateCallbackHarmless(limits: Limits, w: World, log: seq<Event>, h: PeerHex, peer: Peer)
    requires Valid(limits, w) && Legal(limits, w, log) && peer in w.reg.retired
    ensures DetachStep(Run(w, log), h, peer) == Run(w, log)
  {
    var w' := Run(w, log);
    RunForward(limits, w, log);
    RunKeepsValid(limits, w, log);
    assert h in w'.reg.active ==> PeerSound(w', h);
  }

  /** An answer handler looks a query up, and much later looks at the peer again. If the generation
      is still the one that asked, the client that answers is its owner. */
  lemma AnswerGoesToOwner(limits: Limits, w: World, log: seq<Event>, q: QueryId, c: ClientId)
    requires Valid(limits, w) && Legal(limits, w, log)
    requires q in w.pending && w.pending[q].owner == Some(c)
    ensures
      var peer, w' := w.pending[q].peer, Run(w, log);
      Get(w'.reg.active, peer.id) == Some(peer) ==> Get(w'.reg.owners, peer.id) == Some(Some(c))
  {
    assert QuerySound(w, q);
    OwnerNeverChanges(limits, w, log, w.pending[q].peer.id, c);
  }

  /** Why the gateway must not announce a detached connection again: installed anew it has no owner,
      and a closure from its first life would still file queries under the old one. */
  lemma ReannouncedBreaksQueries(limits: Limits, w: World, cl: Closure, q: QueryId, deadline: nat)
    requires Valid(limits, w) && cl in w.armed && cl.peer in w.reg.retired && cl.peer.id !in w.reg.active
    ensures
      var again := w.(reg := Install(w.reg, cl.peer, None, false).0);
      var asked := Apply(again, Query(cl, q, deadline));
      Enabled(limits, again, Query(cl, q, deadline)) && KeysAgree(asked) && q in asked.pending && !QuerySound(asked, q)
  {}

  // ---------------------------------------------------------------- client exit

  ghost predicate NoTrace(w: World, c: ClientId) {
    && (forall h :: h in w.reg.owners ==> w.reg.owners[h] != Some(c))
    && (forall h :: h in w.reg.queries ==> w.reg.queries[h].client != c)
    && (forall ov :: ov in w.attached ==> w.attached[ov].client != c)
    && (forall q :: q in w.pending ==> w.pending[q].owner != Some(c))
    && c in w.lists && w.lists[c].peers == [] && w.lists[c].overlays == []
  }

  lemma SomeMember<T(!new)>(s: seq<T>)
    requires s != []
    ensures exists x :: x in s
  {
    assert s[0] in s;
  }

  lemma ReleasedNoTrace(limits: Limits, w: World, c: ClientId)
    requires Valid(limits, w) && c in w.lists && w.lists[c].phase.Released?
    ensures NoTrace(w, c)
  {
    assert ListSound(limits, w, c);
    forall h | h in w.reg.queries ensures w.reg.queries[h].client != c {
      assert PeerSound(w, h);
      assert w.reg.queries[h] in w.armed;
    }
    forall ov | ov in w.attached ensures w.attached[ov].client != c {
      assert OverlaySound(w, ov);
    }
    forall q | q in w.pending ensures w.pending[q].owner != Some(c) {
      assert QuerySound(w, q);
    }
    var overlays := w.lists[c].overlays;
    assert forall ov :: ov in overlays ==> ov in w.attached;
    if overlays != [] {
      SomeMember(overlays);
    }
  }

  /** After the peer cleanup of an exit, and for ever after, no table refers to the client. The
      overlay list is empty, so the overlay cleanup that follows has nothing left to close. */
  lemma ExitLeavesNoTrace(limits: Limits, w: World, log: seq<Event>, c: ClientId)
    requires Valid(limits, w) && Legal(limits, w, log)
    requires c in w.lists && w.lists[c].phase.Released?
    ensures NoTrace(Run(w, log), c)
  {
    RunForward(limits, w, log);
    RunKeepsValid(limits, w, log);
    ReleasedNoTrace(limits, Run(w, log), c);
  }

  /** The peer list is copied before the lifecycle lock is taken. When the lock comes, a copied id
      is still the client's exactly if the generation installed under it is still the one from the
      time of the copy. The source does not compare generations. */
  lemma ExitOwnsIffSameGeneration(limits: Limits, w: World, log: seq<Event>, c: ClientId, h: PeerHex)
    requires Valid(limits, w) && c in w.lists && w.lists[c].phase.Serving? && h in w.lists[c].peers
    requires Legal(limits, EnvStep(w, TakePeers(c)), log)
    requires h in Run(EnvStep(w, TakePeers(c)), log).reg.active
    ensures
      var w' := Run(EnvStep(w, TakePeers(c)), log);
      h in w.reg.active && h in w'.reg.owners
      && (w'.reg.owners[h] == Some(c) <==> w'.reg.active[h] == w.reg.active[h])
  {
    var w0 := EnvStep(w, TakePeers(c));
    var w' := Run(w0, log);
    StepKeepsValid(limits, w, Env(TakePeers(c)));
    RunKeepsValid(limits, w0, log);
    RunForward(limits, w0, log);
    assert ListSound(limits, w, c);
    assert PeerSound(w, h);
    assert PeerSound(w', h);
    if w'.reg.owners[h] == Some(c) {
      assert w'.reg.active[h] in w0.reg.claimed;
    }
  }

  lemma Extend(limits: Limits, w: World, log: seq<Event>, ev: Event) returns (longer: seq<Event>)
    requires Legal(limits, w, log) && Enabled(limits, Run(w, log), ev)
    ensures Legal(limits, w, longer) && Run(w, longer) == Apply(Run(w, log), ev) && longer == log + [ev]
  {
    longer := log + [ev];
    RunSnoc(limits, w, log, ev);
  }

  // The states of the run below.
  const FIRST := Peer(7, 0)
  const SECOND := Peer(7, 1)
  const IDLE := ClientState([], [], Serving)
  const UNUSED: Registry := Registry(map[], map[], map[], map[], map[], {})
  const OWNED := Registry(map[7 := FIRST], map[7 := FIRST], map[7 := Some(1)], map[], map[FIRST := 1], {})
  const DROPPED := UNUSED.(claimed := map[FIRST := 1], retired := {FIRST})

  function At(reg: Registry, one: ClientState): World {
    World(reg, map[], map[], map[], {}, map[1 := one, 2 := IDLE])
  }

  const LEAVING: ClientState := ClientState([], [], Leaving([7]))

  const ONE: Limits := Limits(1, 1)

  lemma ClaimStep()
    ensures Enabled(ONE, At(UNUSED, IDLE), Claim(1, FIRST, false))
    ensures Apply(At(UNUSED, IDLE), Claim(1, FIRST, false)) == At(OWNED, ClientState([7], [], Serving))
  {
    assert Install(UNUSED, FIRST, Some(1), false) == (OWNED, Installed);
    assert IDLE.peers + [7] == [7];
    assert AddPeer(map[1 := IDLE, 2 := IDLE], 1, 7) == map[1 := ClientState([7], [], Serving), 2 := IDLE];
  }

  lemma TakeStep()
    ensures Apply(At(OWNED, ClientState([7], [], Serving)), Env(TakePeers(1))) == At(OWNED, LEAVING)
  {
    assert ListEnv(map[1 := ClientState([7], [], Serving), 2 := IDLE], TakePeers(1)) == map[1 := LEAVING, 2 := IDLE];
  }

  lemma DropStep()
    ensures Apply(At(OWNED, LEAVING), Detach(7, FIRST)) == At(DROPPED, LEAVING)
  {
    var w := At(OWNED, LEAVING);
    assert OverlaysOf(w.peerOf, 7) == {};
    assert RemoveKey(OWNED, 7, FIRST) == DROPPED;
    assert NotFrom(w.pending, FIRST) == map[];
    assert DropFromLists(w.lists, Some(1), 7, {}) == w.lists;
  }

  lemma SecondClaimStep()
    ensures Enabled(ONE, At(DROPPED, LEAVING), Claim(2, SECOND, false))
    ensures
      var w := Apply(At(DROPPED, LEAVING), Claim(2, SECOND, false));
      && 1 in w.lists && w.lists[1] == LEAVING
      && 7 in w.reg.active && Get(w.reg.owners, 7) == Some(Some(2))
  {
    var (r, outcome) := Install(DROPPED, SECOND, Some(2), false);
    assert outcome == Installed && Get(r.active, 7) == Some(SECOND) && Get(r.owners, 7) == Some(Some(2));
  }

  lemma DetachRemoves(w: World, h: PeerHex)
    requires h in w.reg.active
    ensures h !in DetachStep(w, h, w.reg.active[h]).reg.active
  {}

  /** The case where they differ: client 1 leaves, its connection drops, client 2 connects to the
      same peer id, and then the exit of client 1 detaches the connection of client 2. */
  lemma ExitMayDetachAnother() returns (limits: Limits, w: World, log: seq<Event>)
    ensures Fresh(w) && Legal(limits, w, log)
    ensures
      var w' := Run(w, log);
      && 1 in w'.lists && w'.lists[1].phase == Leaving([7])
      && 7 in w'.reg.active && Get(w'.reg.owners, 7) == Some(Some(2))
      && 7 !in DetachStep(w', 7, w'.reg.active[7]).reg.active
  {
    hide Apply, DetachStep, Install, Get;
    limits, w := ONE, At(UNUSED, IDLE);
    log := Empty(limits, w);
    ClaimStep();
    log := Extend(limits, w, log, Claim(1, FIRST, false));
    TakeStep();
    log := Extend(limits, w, log, Env(TakePeers(1)));
    DropStep();
    log := Extend(limits, w, log, Detach(7, FIRST));
    SecondClaimStep();
    log := Extend(limits, w, log, Claim(2, SECOND, false));
    DetachRemoves(Run(w, log), 7);
  }

  lemma Empty(limits: Limits, w: World) returns (log: seq<Event>)
    ensures Legal(limits, w, log) && Run(w, log) == w
  {
    log := [];
  }
}
