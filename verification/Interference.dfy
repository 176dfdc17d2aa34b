/** Steps that other goroutines take while a handler holds the lifecycle lock, and how they move
    past the sections of that handler: the argument that a locked handler is one atomic step. */
module Interference {
  import opened Basics
  import opened Lifecycle
  import opened LifecycleRuns

  function RegRun(r: Registry, es: seq<Env>): Registry {
    if es == [] then r else RegEnv(RegRun(r, es[..|es| - 1]), es[|es| - 1])
  }

  function PendRun(p: map<QueryId, Pending>, es: seq<Env>): map<QueryId, Pending> {
    if es == [] then p else PendEnv(PendRun(p, es[..|es| - 1]), es[|es| - 1])
  }

  function ListRun(l: map<ClientId, ClientState>, es: seq<Env>): map<ClientId, ClientState> {
    if es == [] then l else ListEnv(ListRun(l, es[..|es| - 1]), es[|es| - 1])
  }

  /** A run of such steps acts on the registry, the queries and the lists separately. */
  function EnvRun(w: World, es: seq<Env>): World {
    w.(reg := RegRun(w.reg, es), pending := PendRun(w.pending, es), lists := ListRun(w.lists, es))
  }

  function Events(es: seq<Env>): (log: seq<Event>)
    ensures |log| == |es|
  {
    seq(|es|, i requires 0 <= i < |es| => Event.Env(es[i]))
  }

  /** The steps of the lock holder in a log. */
  function Own(log: seq<Event>): seq<Event> {
    if log == [] then []
    else if log[|log| - 1].Env? then Own(log[..|log| - 1])
    else Own(log[..|log| - 1]) + [log[|log| - 1]]
  }

  /** No request of c is cut short: its exit has to wait for its handlers. */
  ghost predicate Spares(es: seq<Env>, busy: set<ClientId>) {
    forall i :: 0 <= i < |es| && es[i].TakePeers? ==> es[i].client !in busy
  }

  lemma SparesConcat(a: seq<Env>, b: seq<Env>, busy: set<ClientId>)
    requires Spares(a, busy) && Spares(b, busy)
    ensures Spares(a + b, busy)
  {}

  ghost predicate OnlyDetaches(own: seq<Event>, hex: PeerHex) {
    forall i :: 0 <= i < |own| ==> own[i].Detach? && own[i].hex == hex
  }

  /** Nothing, or failed candidates detached and then one claim of this connection for this client. */
  ghost predicate EndsInClaim(own: seq<Event>, client: ClientId, peer: Peer) {
    own == [] || (
      var last := own[|own| - 1];
      last.Claim? && last.client == client && last.peer == peer && OnlyDetaches(own[..|own| - 1], peer.id))
  }

  lemma ClaimLast(own: seq<Event>, client: ClientId, peer: Peer, closed: bool)
    requires OnlyDetaches(own, peer.id)
    ensures EndsInClaim(own + [Claim(client, peer, closed)], client, peer)
  {
    assert (own + [Claim(client, peer, closed)])[..|own|] == own;
  }

  lemma DetachesConcat(a: seq<Event>, b: seq<Event>, hex: PeerHex)
    requires OnlyDetaches(a, hex) && OnlyDetaches(b, hex)
    ensures OnlyDetaches(a + b, hex)
  {}

  /** log explains how before became after: a legal serial run. */
  ghost predicate Explains(limits: Limits, before: World, after: World, log: seq<Event>) {
    Legal(limits, before, log) && Run(before, log) == after
  }

  lemma {:induction false} OwnConcat(a: seq<Event>, b: seq<Event>)
    ensures Own(a + b) == Own(a) + Own(b)
  {
    if b == [] {
      assert a + b == a;
    } else {
      OwnConcat(a, b[..|b| - 1]);
      assert (a + b)[..|a + b| - 1] == a + b[..|b| - 1];
    }
  }

  lemma NoSteps(limits: Limits, w: World, hex: PeerHex)
    ensures Explains(limits, w, w, []) && Own([]) == [] && OnlyDetaches([], hex)
  {}

  lemma ExplainsConcat(limits: Limits, a: World, b: World, c: World, p: seq<Event>, q: seq<Event>)
    requires Explains(limits, a, b, p) && Explains(limits, b, c, q)
    ensures Explains(limits, a, c, p + q) && Own(p + q) == Own(p) + Own(q)
  {
    RunConcat(limits, a, p, q);
    OwnConcat(p, q);
  }

  lemma ExplainsStep(limits: Limits, w: World, ev: Event)
    requires Enabled(limits, w, ev)
    ensures Explains(limits, w, Apply(w, ev), [ev]) && Own([ev]) == if ev.Env? then [] else [ev]
  {
    RunSnoc(limits, w, [], ev);
    assert [] + [ev] == [ev];
    assert [ev][..0] == [];
  }

  lemma {:induction false} EnvExplains(limits: Limits, w: World, es: seq<Env>)
    ensures Explains(limits, w, EnvRun(w, es), Events(es)) && Own(Events(es)) == []
  {
    if es != [] {
      var front := es[..|es| - 1];
      EnvExplains(limits, w, front);
      assert Events(es)[..|es| - 1] == Events(front);
      assert Events(es) == Events(front) + [Event.Env(es[|es| - 1])];
      RunSnoc(limits, w, Events(front), Event.Env(es[|es| - 1]));
    }
  }

  lemma EnvRunSnoc(w: World, es: seq<Env>, e: Env)
    ensures EnvRun(w, es + [e]) == EnvStep(EnvRun(w, es), e)
  {
    assert (es + [e])[..|es|] == es;
  }

  lemma {:induction false} EnvRunConcat(w: World, a: seq<Env>, b: seq<Env>)
    ensures EnvRun(w, a + b) == EnvRun(EnvRun(w, a), b)
  {
    if b == [] {
      assert a + b == a;
    } else {
      EnvRunConcat(w, a, b[..|b| - 1]);
      assert (a + b)[..|a + b| - 1] == a + b[..|b| - 1];
    }
  }

  // ---------------------------------------------------------------- what other writers can do to the registry

  /** An installed generation keeps its entries: other writers only add missing keys. */
  lemma {:induction false} InstalledStays(r: Registry, es: seq<Env>, h: PeerHex)
    requires h in r.active
    ensures
      var r' := RegRun(r, es);
      && Get(r'.active, h) == Some(r.active[h]) && Get(r'.owners, h) == Get(r.owners, h)
  {
    if es != [] {
      InstalledStays(r, es[..|es| - 1], h);
    }
  }

  /** And whatever they add has no owner. */
  lemma {:induction false} InsertsAreUnowned(r: Registry, es: seq<Env>)
    ensures
      var r' := RegRun(r, es);
      && r'.queries == r.queries && r'.claimed == r.claimed && r'.retired == r.retired
      && forall h :: h !in r.active && h in r'.active ==> Get(r'.owners, h) == Some(None)
  {
    if es != [] {
      InsertsAreUnowned(r, es[..|es| - 1]);
    }
  }

  lemma {:induction false} ServingStays(lists: map<ClientId, ClientState>, es: seq<Env>, busy: set<ClientId>)
    requires Spares(es, busy)
    ensures
      var l' := ListRun(lists, es);
      l'.Keys == lists.Keys && forall c :: c in busy && c in lists ==> l'[c] == lists[c]
  {
    if es != [] {
      ServingStays(lists, es[..|es| - 1], busy);
    }
  }

  // ---------------------------------------------------------------- moving them past the sections of a handler

  /** Dropping the queries of a generation, before or after. */
  lemma {:induction false} DropQueriesCommutes(p: map<QueryId, Pending>, peer: Peer, es: seq<Env>)
    ensures PendRun(NotFrom(p, peer), es) == NotFrom(PendRun(p, es), peer)
  {
    if es != [] {
      DropQueriesCommutes(p, peer, es[..|es| - 1]);
    }
  }

  /** Adding a peer to the list of a client that is not leaving, before or after. */
  lemma {:induction false} AddPeerCommutes(l: map<ClientId, ClientState>, c: ClientId, hex: PeerHex, es: seq<Env>)
    requires Spares(es, {c})
    ensures ListRun(AddPeer(l, c, hex), es) == AddPeer(ListRun(l, es), c, hex)
  {
    if es != [] {
      AddPeerCommutes(l, c, hex, es[..|es| - 1]);
      ServingStays(l, es[..|es| - 1], {c});
    }
  }

  /** Rewriting the lists of a client that is not leaving, before or after. */
  lemma {:induction false} UpdateCommutes(l: map<ClientId, ClientState>, c: ClientId, s: ClientState, es: seq<Env>)
    requires Spares(es, {c}) && c in l
    ensures ListRun(l[c := s], es) == ListRun(l, es)[c := s]
  {
    if es != [] {
      UpdateCommutes(l, c, s, es[..|es| - 1]);
      ServingStays(l, es[..|es| - 1], {c});
    }
  }

  predicate IsTake(e: Env) { e.TakePeers? }

  /** The steps of a log that copy and clear a peer list, or the others. */
  function Only(es: seq<Env>, takes: bool): seq<Env> {
    if es == [] then []
    else if IsTake(es[|es| - 1]) == takes then Only(es[..|es| - 1], takes) + [es[|es| - 1]]
    else Only(es[..|es| - 1], takes)
  }

  lemma {:induction false} OnlyOthers(w: World, es: seq<Env>)
    ensures EnvRun(w, Only(es, false)) == EnvRun(w, es).(lists := w.lists)
  {
    if es != [] {
      OnlyOthers(w, es[..|es| - 1]);
      var kept := Only(es[..|es| - 1], false);
      assert (kept + [es[|es| - 1]])[..|kept|] == kept;
    }
  }

  lemma {:induction false} OnlyTakes(w: World, es: seq<Env>)
    ensures EnvRun(w, Only(es, true)) == w.(lists := ListRun(w.lists, es))
  {
    if es != [] {
      OnlyTakes(w, es[..|es| - 1]);
      var kept := Only(es[..|es| - 1], true);
      assert (kept + [es[|es| - 1]])[..|kept|] == kept;
    }
  }

  /** What the sections of a detach leave when the steps es are spread between them: before lists
      those up to the section on the owner's lists, after those that follow it. */
  function Detached(w: World, hex: PeerHex, expected: Peer, before: seq<Env>, after: seq<Env>): World {
    var gone := OverlaysOf(w.peerOf, hex);
    var owner := if hex in w.reg.owners then w.reg.owners[hex] else None;
    World(RemoveKey(RegRun(w.reg, before + after), hex, expected), w.attached - gone, w.peerOf - gone,
          NotFrom(PendRun(w.pending, before + after), expected), w.armed,
          ListRun(DropFromLists(ListRun(w.lists, before), owner, hex, gone), after))
  }

  /** The sections of a detach act as one atomic step: the rest of the bridge can be moved before
      it, except the exits that copy a list after it was filtered, which move behind it. */
  lemma DetachIsAtomic(limits: Limits, w: World, hex: PeerHex, expected: Peer, before: seq<Env>, after: seq<Env>)
    returns (log: seq<Event>)
    requires Get(w.reg.active, hex) == Some(expected)
    ensures Explains(limits, w, Detached(w, hex, expected, before, after), log)
    ensures Own(log) == [Detach(hex, expected)]
  {
    var early := before + Only(after, false);
    var w1 := EnvRun(w, early);
    EnvRunConcat(w, before, Only(after, false));
    EnvRunConcat(w, before, after);
    OnlyOthers(EnvRun(w, before), after);
    InstalledStays(w.reg, before + after, hex);
    var w2 := DetachStep(w1, hex, expected);
    OnlyTakes(w2, after);
    EnvExplains(limits, w, early);
    ExplainsStep(limits, w1, Detach(hex, expected));
    EnvExplains(limits, w2, Only(after, true));
    ExplainsConcat(limits, w, w1, w2, Events(early), [Detach(hex, expected)]);
    ExplainsConcat(limits, w, w2, EnvRun(w2, Only(after, true)), Events(early) + [Detach(hex, expected)], Events(Only(after, true)));
    log := Events(early) + [Detach(hex, expected)] + Events(Only(after, true));
  }

  lemma InstallFacts(r: Registry, peer: Peer, c: ClientId, closed: bool)
    ensures
      var (r', outcome) := Install(r, peer, Some(c), closed);
      if outcome == Installed then Get(r'.active, peer.id) == Some(peer) && Get(r'.owners, peer.id) == Some(Some(c))
      else r' == r && (Unowned(r, peer.id) ==> Get(r.active, peer.id) != Some(peer))
  {}

  /** Claiming a connection and adding it to the client's list act as one atomic step. */
  lemma ClaimIsAtomic(limits: Limits, w: World, c: ClientId, peer: Peer, closed: bool, es: seq<Env>) returns (log: seq<Event>)
    requires Enabled(limits, w, Claim(c, peer, closed)) && Spares(es, {c})
    ensures
      var r := Install(w.reg, peer, Some(c), closed).0;
      Explains(limits, w, EnvRun(w, es).(reg := RegRun(r, es), lists := AddPeer(ListRun(w.lists, es), c, peer.id)), log)
    ensures Own(log) == [Claim(c, peer, closed)]
  {
    var w1 := Apply(w, Claim(c, peer, closed));
    AddPeerCommutes(w.lists, c, peer.id, es);
    ExplainsStep(limits, w, Claim(c, peer, closed));
    EnvExplains(limits, w1, es);
    ExplainsConcat(limits, w, w1, EnvRun(w1, es), [Claim(c, peer, closed)], Events(es));
    log := [Claim(c, peer, closed)] + Events(es);
  }

  /** A step on the overlays and on the list of one client, spread over several sections. */
  lemma OverlayStepIsAtomic(limits: Limits, w: World, ev: Event, es: seq<Env>) returns (log: seq<Event>)
    requires (ev.Join? || ev.Leave?) && Enabled(limits, w, ev) && Spares(es, {ev.client})
    ensures
      var w1 := Apply(w, ev);
      Explains(limits, w, EnvRun(w, es).(attached := w1.attached, peerOf := w1.peerOf,
                                         lists := ListRun(w.lists, es)[ev.client := w1.lists[ev.client]]), log)
    ensures Own(log) == [ev]
  {
    var w1 := Apply(w, ev);
    assert w1.lists == w.lists[ev.client := w1.lists[ev.client]];
    UpdateCommutes(w.lists, ev.client, w1.lists[ev.client], es);
    ExplainsStep(limits, w, ev);
    EnvExplains(limits, w1, es);
    ExplainsConcat(limits, w, w1, EnvRun(w1, es), [ev], Events(es));
    log := [ev] + Events(es);
  }

  // ---------------------------------------------------------------- what a handler may rely on

  /** The peer list of a serving client against the owner map. */
  lemma ListedIffOwned(limits: Limits, w: World, c: ClientId, h: PeerHex)
    requires Valid(limits, w) && ServingClient(w, c)
    ensures h in w.lists[c].peers <==> h in w.reg.active && Get(w.reg.owners, h) == Some(Some(c))
    ensures h in w.reg.active <==> h in w.reg.owners
    ensures h in w.reg.active ==> w.reg.active[h].id == h && w.reg.active[h] !in w.reg.retired
  {
    assert ListSound(limits, w, c);
    assert h in w.reg.active ==> PeerSound(w, h);
  }

  /** The overlay list of a client against the overlay maps. */
  lemma ListedOverlay(limits: Limits, w: World, c: ClientId, ov: OverlayHex)
    requires Valid(limits, w) && ServingClient(w, c)
    ensures NoDup(w.lists[c].overlays) && w.attached.Keys == w.peerOf.Keys
    ensures ov in w.attached ==> w.peerOf[ov] in w.reg.active && Get(w.reg.owners, w.peerOf[ov]) == Some(Some(w.attached[ov].client))
    ensures ov in w.lists[c].overlays <==> ov in w.attached && w.attached[ov].client == c
  {
    assert ListSound(limits, w, c);
    assert ov in w.attached ==> OverlaySound(w, ov);
  }

  /** Between two sections: what is installed stays, what appears has no owner, and the lists of the
      busy clients are untouched. */
  ghost predicate Paused(w: World, w': World, busy: set<ClientId>) {
    && w'.reg.queries == w.reg.queries && w'.reg.claimed == w.reg.claimed && w'.reg.retired == w.reg.retired
    && w'.attached == w.attached && w'.peerOf == w.peerOf && w'.armed == w.armed
    && (forall h :: h in w.reg.active ==> Get(w'.reg.active, h) == Some(w.reg.active[h]) && Get(w'.reg.owners, h) == Get(w.reg.owners, h))
    && (forall h :: h !in w.reg.active && h in w'.reg.active ==> Get(w'.reg.owners, h) == Some(None))
    && w'.lists.Keys == w.lists.Keys
    && (forall c :: c in busy && c in w.lists ==> w'.lists[c] == w.lists[c])
  }

  lemma EnvRunPauses(w: World, es: seq<Env>, busy: set<ClientId>)
    requires Spares(es, busy)
    ensures Paused(w, EnvRun(w, es), busy)
  {
    forall h | h in w.reg.active
      ensures Get(RegRun(w.reg, es).active, h) == Some(w.reg.active[h]) && Get(RegRun(w.reg, es).owners, h) == Get(w.reg.owners, h)
    {
      InstalledStays(w.reg, es, h);
    }
    InsertsAreUnowned(w.reg, es);
    ServingStays(w.lists, es, busy);
  }

  /** Everything that has an owner is as before. */
  ghost predicate OwnedKept(w: World, w': World) {
    && (forall h :: h in w.reg.owners && w.reg.owners[h].Some? ==>
          && Get(w'.reg.owners, h) == Some(w.reg.owners[h]) && Get(w'.reg.active, h) == Get(w.reg.active, h)
          && Get(w'.reg.wrappers, h) == Get(w.reg.wrappers, h) && Get(w'.reg.queries, h) == Get(w.reg.queries, h))
    && w'.attached == w.attached && w'.peerOf == w.peerOf && w'.reg.claimed == w.reg.claimed
  }

  lemma EnvKeepsOwned(w: World, e: Env, hex: PeerHex)
    requires KeysAgree(w)
    ensures OwnedKept(w, EnvStep(w, e)) && (Unowned(w.reg, hex) ==> Unowned(EnvStep(w, e).reg, hex))
  {}

  lemma DetachKeepsOwned(w: World, hex: PeerHex, expected: Peer)
    requires KeysAgree(w) && Unowned(w.reg, hex) && OverlaysOf(w.peerOf, hex) == {}
    ensures OwnedKept(w, DetachStep(w, hex, expected)) && Unowned(DetachStep(w, hex, expected).reg, hex)
  {}

  lemma StepKeepsOwned(limits: Limits, w: World, ev: Event, hex: PeerHex)
    requires Valid(limits, w)
    requires ev.Env? || (ev.Detach? && ev.hex == hex && Unowned(w.reg, hex))
    ensures OwnedKept(w, Apply(w, ev)) && (Unowned(w.reg, hex) ==> Unowned(Apply(w, ev).reg, hex))
  {
    if ev.Env? {
      EnvKeepsOwned(w, ev.e, hex);
    } else {
      forall ov | ov in w.peerOf ensures w.peerOf[ov] != hex {
        assert OverlaySound(w, ov);
      }
      DetachKeepsOwned(w, hex, ev.expected);
    }
  }

  lemma {:induction false} DetachRunKeepsOwned(limits: Limits, w: World, log: seq<Event>, hex: PeerHex)
    requires Valid(limits, w) && Legal(limits, w, log) && OnlyDetaches(Own(log), hex)
    requires Own(log) == [] || Unowned(w.reg, hex)
    ensures OwnedKept(w, Run(w, log)) && (Unowned(w.reg, hex) ==> Unowned(Run(w, log).reg, hex))
  {
    if log != [] {
      var front, last := log[..|log| - 1], log[|log| - 1];
      forall i | 0 <= i < |Own(front)| ensures Own(front)[i].Detach? && Own(front)[i].hex == hex {
        assert Own(log)[i] == Own(front)[i];
      }
      assert !last.Env? ==> Own(log)[|Own(log)| - 1] == last;
      DetachRunKeepsOwned(limits, w, front, hex);
      RunKeepsValid(limits, w, front);
      StepKeepsOwned(limits, Run(w, front), last, hex);
    }
  }

  /** A handler whose only steps detach an ownerless connection leaves every owned one alone. */
  lemma DetachesKeepOwned(limits: Limits, w: World, w': World, log: seq<Event>, hex: PeerHex)
    requires Valid(limits, w) && Explains(limits, w, w', log) && OnlyDetaches(Own(log), hex)
    requires Own(log) == [] || Unowned(w.reg, hex)
    ensures OwnedKept(w, w') && (Unowned(w.reg, hex) ==> Unowned(w'.reg, hex))
  {
    DetachRunKeepsOwned(limits, w, log, hex);
  }

  lemma ExplainedValid(limits: Limits, w: World, w': World, log: seq<Event>)
    requires Valid(limits, w) && Explains(limits, w, w', log)
    ensures Valid(limits, w')
  {
    RunKeepsValid(limits, w, log);
  }

  /** A detach touches the lists of the owner only. */
  lemma ListsSpared(w: World, hex: PeerHex, expected: Peer, before: seq<Env>, after: seq<Env>, busy: set<ClientId>)
    requires Spares(before + after, busy)
    ensures
      var owner := if hex in w.reg.owners then w.reg.owners[hex] else None;
      var l' := Detached(w, hex, expected, before, after).lists;
      forall k :: k in busy && k in w.lists ==>
        k in l' && l'[k].phase == w.lists[k].phase && (owner != Some(k) ==> l'[k] == w.lists[k])
  {
    var owner := if hex in w.reg.owners then w.reg.owners[hex] else None;
    forall i | 0 <= i < |before| && before[i].TakePeers? ensures before[i].client !in busy {
      assert (before + after)[i] == before[i];
    }
    forall i | 0 <= i < |after| && after[i].TakePeers? ensures after[i].client !in busy {
      assert (before + after)[|before| + i] == after[i];
    }
    ServingStays(w.lists, before, busy);
    ServingStays(DropFromLists(ListRun(w.lists, before), owner, hex, OverlaysOf(w.peerOf, hex)), after, busy);
  }

  /** A client that is leaving gains no connection, whatever the others do. */
  lemma LeavingGainsNothing(limits: Limits, w: World, w': World, log: seq<Event>, c: ClientId, h: PeerHex)
    requires Valid(limits, w) && Explains(limits, w, w', log)
    requires c in w.lists && !w.lists[c].phase.Serving?
    ensures Get(w'.reg.owners, h) == Some(Some(c)) ==> Get(w.reg.owners, h) == Some(Some(c))
  {
    RunForward(limits, w, log);
    RunKeepsValid(limits, w, log);
    assert h in w'.reg.active ==> PeerSound(w', h);
    assert h in w.reg.active ==> PeerSound(w, h);
  }

  /** And what it still has is on the list it took. */
  lemma LeavingOwnsTaken(limits: Limits, w: World, c: ClientId, taken: seq<PeerHex>)
    requires Valid(limits, w) && c in w.lists && w.lists[c].phase == Leaving(taken)
    requires forall j :: 0 <= j < |taken| ==> Get(w.reg.owners, taken[j]) != Some(Some(c))
    ensures Enabled(limits, w, Release(c))
  {
    assert ListSound(limits, w, c);
  }

  lemma SameKeys(limits: Limits, w: World, h: PeerHex)
    requires Valid(limits, w)
    ensures h in w.reg.active <==> h in w.reg.owners
  {}
}
