/** What every reachable state of a trace satisfies. */
module TraceSafety {
  import opened Sums
  import opened TraceMachine

  function Holds(r: Resolver): nat { if r.stage.Polling? || r.stage.Sending? || r.stage.Returning? then 1 else 0 }

  function Live(r: Resolver): nat { if r.stage.Gone? then 0 else 1 }

  function Late(r: Resolver): nat { if r.timedOut then 1 else 0 }

  function MsgsOf(rs: seq<Resolver>): seq<Msg> {
    seq(|rs|, i requires 0 <= i < |rs| => rs[i].msg)
  }

  /** What a resolver has found and not yet written to the channel. */
  function Rest(r: Resolver): seq<Msg> { if r.stage.Sending? then r.stage.rest else [] }

  function Unsent(rs: seq<Resolver>): multiset<Msg> {
    if rs == [] then multiset{} else Unsent(rs[..|rs| - 1]) + multiset(Rest(rs[|rs| - 1]))
  }

  lemma Cancel(a: multiset<Msg>, b: multiset<Msg>, x: multiset<Msg>)
    requires a + x == b + x
    ensures a == b
  {
    forall m: Msg ensures a[m] == b[m] {
      assert (a + x)[m] == (b + x)[m];
    }
  }

  lemma UnsentSnoc(rs: seq<Resolver>, r: Resolver)
    ensures Unsent(rs + [r]) == Unsent(rs) + multiset(Rest(r))
  {
    assert (rs + [r])[..|rs|] == rs;
  }

  lemma {:induction false} UnsentUpdate(rs: seq<Resolver>, i: nat, r: Resolver)
    requires i < |rs|
    ensures Unsent(rs[i := r]) + multiset(Rest(rs[i])) == Unsent(rs) + multiset(Rest(r))
  {
    hide Rest;
    var n := |rs| - 1;
    if i == n {
      assert rs[i := r][..n] == rs[..n];
    } else {
      assert rs[i := r][..n] == rs[..n][i := r];
      UnsentUpdate(rs[..n], i, r);
      var before, after, last := Unsent(rs[..n]), Unsent(rs[..n][i := r]), multiset(Rest(rs[n]));
      assert (after + last) + multiset(Rest(rs[i])) == (after + multiset(Rest(rs[i]))) + last;
      assert (before + last) + multiset(Rest(r)) == (before + multiset(Rest(r))) + last;
    }
  }

  lemma {:induction false} NothingUnsent(rs: seq<Resolver>)
    requires forall i :: 0 <= i < |rs| ==> Rest(rs[i]) == []
    ensures Unsent(rs) == multiset{}
  {
    if rs != [] {
      NothingUnsent(rs[..|rs| - 1]);
    }
  }

  /** The greatest depth in a list of messages, 0 if it is empty. */
  function Deepest(ms: seq<Msg>): (d: nat)
    ensures forall i :: 0 <= i < |ms| ==> ms[i].depth <= d
    ensures d == 0 || exists i :: 0 <= i < |ms| && ms[i].depth == d
  {
    if ms == [] then 0
    else
      var d, last := Deepest(ms[..|ms| - 1]), ms[|ms| - 1].depth;
      if last > d then last else d
  }

  lemma DeepestSnoc(ms: seq<Msg>, m: Msg)
    ensures Deepest(ms + [m]) == if m.depth > Deepest(ms) then m.depth else Deepest(ms)
  {
    assert (ms + [m])[..|ms|] == ms;
  }

  /** The permits in use, the wait group and the timeout count say what the resolvers do. */
  ghost predicate Counted(cfg: Config, s: Trace) {
    && s.permits == Sum(s.resolvers, Holds) && s.permits <= cfg.maxResolvers
    && s.group == Sum(s.resolvers, Live)
    && s.timedOut == Sum(s.resolvers, Late)
    && |s.channel| <= CHANNEL_SIZE
  }

  ghost predicate DepthOk(cfg: Config, m: Msg) { 1 <= m.depth <= cfg.maxDepth }

  /** A resolver makes its one attempt when it stops polling, and sends children one level down. */
  ghost predicate ResolverOk(cfg: Config, r: Resolver) {
    && DepthOk(cfg, r.msg)
    && r.attempts == (if r.stage.Queued? || r.stage.Polling? then 0 else 1)
    && (r.timedOut ==> r.attempts == 1 && !r.stage.Sending?)
    && (r.stage.Sending? ==> r.msg.depth < cfg.maxDepth && |r.stage.rest| <= cfg.fanout)
    && (r.stage.Sending? ==> forall k :: 0 <= k < |r.stage.rest| ==> r.stage.rest[k].depth == r.msg.depth + 1)
  }

  ghost predicate Shaped(cfg: Config, s: Trace) {
    && (forall i :: 0 <= i < |s.resolvers| ==> ResolverOk(cfg, s.resolvers[i]))
    && (forall i :: 0 <= i < |s.channel| ==> DepthOk(cfg, s.channel[i]))
  }

  /** Each message found is in one place: spawned, in the channel, still with the resolver that found it,
      or dropped by a cancel. */
  ghost predicate Conserved(initial: nat, s: Trace) {
    && |s.resolvers| == initial + s.totalTxs
    && s.maxDepthReached == Deepest(MsgsOf(s.resolvers)[initial..])
    && s.discovered == multiset(MsgsOf(s.resolvers)) + multiset(s.channel) + Unsent(s.resolvers) + s.dropped
    && (s.dropped != multiset{} ==> s.coordinator.Cancelling? || s.coordinator.Cancelled?)
  }

  /** How the waiter and the coordinator follow the wait group. */
  ghost predicate Phased(s: Trace) {
    && (s.waiter.Waiting? ==> s.group > 0)
    && (!Fired(s) ==> !s.stale)
    && (!s.stale && Fired(s) ==> s.group == 0)
    && (s.coordinator.Draining? || s.coordinator.Completed? || s.coordinator.Cancelled? ==> s.waiter.Signalled?)
    && (s.closed <==> s.coordinator.Cancelled?)
    && (s.coordinator.Completed? && !s.stale ==> s.channel == [])
    && (s.crashed ==> s.stale && s.closed)
  }

  ghost predicate Inv(cfg: Config, initial: nat, s: Trace) {
    Counted(cfg, s) && Shaped(cfg, s) && Conserved(initial, s) && Phased(s)
  }

  lemma StartInv(cfg: Config, initial: seq<Msg>)
    requires forall i :: 0 <= i < |initial| ==> initial[i].depth == 1
    requires cfg.maxDepth >= 1
    ensures Inv(cfg, |initial|, Start(initial))
  {
    var rs := FreshAll(initial);
    SumEqual(rs, Holds, 0);
    SumEqual(rs, Live, 1);
    SumEqual(rs, Late, 0);
    NothingUnsent(rs);
    assert MsgsOf(rs) == initial;
  }

  /** Changing one resolver without touching its message. */
  lemma ResolverChange(rs: seq<Resolver>, i: nat, r: Resolver)
    requires i < |rs| && r.msg == rs[i].msg
    ensures Sum(rs[i := r], Holds) + Holds(rs[i]) == Sum(rs, Holds) + Holds(r)
    ensures Sum(rs[i := r], Live) + Live(rs[i]) == Sum(rs, Live) + Live(r)
    ensures Sum(rs[i := r], Late) + Late(rs[i]) == Sum(rs, Late) + Late(r)
  {
    SumUpdate(rs, i, r, Holds);
    SumUpdate(rs, i, r, Live);
    SumUpdate(rs, i, r, Late);
  }

  lemma StillCounted(rs: seq<Resolver>, i: nat)
    requires i < |rs|
    ensures Holds(rs[i]) <= Sum(rs, Holds) && Live(rs[i]) <= Sum(rs, Live)
  {
    SumAtLeast(rs, i, Holds);
    SumAtLeast(rs, i, Live);
  }

  // The steps of the resolvers.

  lemma SendDepth(cfg: Config, r: Resolver, a: Action)
    requires a.Send? && Ready(cfg, r, a) && ResolverOk(cfg, r)
    ensures r.stage.Sending? && r.stage.rest != [] && DepthOk(cfg, r.stage.rest[0])
  {}

  lemma AfterOk(cfg: Config, r: Resolver, a: Action)
    requires IsResolverStep(a) && Ready(cfg, r, a) && ResolverOk(cfg, r)
    ensures ResolverOk(cfg, After(cfg, r, a)) && After(cfg, r, a).msg == r.msg
    ensures Holds(After(cfg, r, a)) == if a.Acquire? then 1 else if a.ReleasePermit? then 0 else Holds(r)
    ensures Live(r) == 1 && Live(After(cfg, r, a)) == if a.LeaveGroup? then 0 else 1
    ensures Late(After(cfg, r, a)) == if a.TimeOut? then 1 else Late(r)
    ensures (a.Acquire? ==> Holds(r) == 0) && (a.ReleasePermit? ==> Holds(r) == 1) && (a.TimeOut? ==> Late(r) == 0)
  {}

  lemma ResolverStepCounted(cfg: Config, s: Trace, a: Action)
    requires Counted(cfg, s) && Enabled(cfg, s, a) && IsResolverStep(a) && ResolverOk(cfg, s.resolvers[a.i])
    ensures Counted(cfg, Apply(cfg, s, a))
  {
    hide ResolverOk, Ready, After, Holds, Live, Late;
    StillCounted(s.resolvers, a.i);
    AfterOk(cfg, s.resolvers[a.i], a);
    ResolverChange(s.resolvers, a.i, After(cfg, s.resolvers[a.i], a));
  }

  lemma ResolverStepShaped(cfg: Config, s: Trace, a: Action)
    requires Shaped(cfg, s) && Enabled(cfg, s, a) && IsResolverStep(a)
    ensures Shaped(cfg, Apply(cfg, s, a))
  {
    hide ResolverOk, Ready, After;
    AfterOk(cfg, s.resolvers[a.i], a);
    if a.Send? {
      SendDepth(cfg, s.resolvers[a.i], a);
    }
  }

  lemma RestAfter(cfg: Config, r: Resolver, a: Action)
    requires IsResolverStep(a) && Ready(cfg, r, a)
    ensures
      var rest := Rest(After(cfg, r, a));
      if a.Send? then Rest(r) != [] && rest == Rest(r)[1..] && r.stage.Sending? && r.stage.rest == Rest(r)
      else multiset(rest) == multiset(Rest(r)) + Followed(cfg, r, a)
  {}

  lemma SendConserved(cfg: Config, initial: nat, s: Trace, a: Action)
    requires Conserved(initial, s) && Enabled(cfg, s, a) && a.Send? && ResolverOk(cfg, s.resolvers[a.i])
    ensures Conserved(initial, Apply(cfg, s, a))
  {
    hide ResolverOk, Ready, After, MsgsOf, Deepest, Rest, Unsent;
    if !s.closed {
      var r := s.resolvers[a.i];
      AfterOk(cfg, r, a);
      MsgsKept(s.resolvers, a.i, After(cfg, r, a));
      RestAfter(cfg, r, a);
      UnsentUpdate(s.resolvers, a.i, After(cfg, r, a));
      var m := Rest(r)[0];
      assert Rest(r) == [m] + Rest(r)[1..];
      var before, after := Unsent(s.resolvers), Unsent(s.resolvers[a.i := After(cfg, r, a)]);
      assert after + multiset(Rest(r)) == (after + multiset{m}) + multiset(Rest(r)[1..]);
      Cancel(after + multiset{m}, before, multiset(Rest(r)[1..]));
      assert multiset(s.channel + [m]) == multiset(s.channel) + multiset{m};
    }
  }

  lemma ResolverStepConserved(cfg: Config, initial: nat, s: Trace, a: Action)
    requires Conserved(initial, s) && Enabled(cfg, s, a) && IsResolverStep(a) && ResolverOk(cfg, s.resolvers[a.i])
    ensures Conserved(initial, Apply(cfg, s, a))
  {
    hide ResolverOk, Ready, After, MsgsOf, Deepest, Rest, Unsent, Followed;
    if a.Send? {
      SendConserved(cfg, initial, s, a);
    } else {
      var r := s.resolvers[a.i];
      AfterOk(cfg, r, a);
      MsgsKept(s.resolvers, a.i, After(cfg, r, a));
      RestAfter(cfg, r, a);
      UnsentUpdate(s.resolvers, a.i, After(cfg, r, a));
      DiscoveredBy(cfg, s, a);
      var before, after := Unsent(s.resolvers), Unsent(s.resolvers[a.i := After(cfg, r, a)]);
      assert before + multiset(Rest(After(cfg, r, a))) == (before + Followed(cfg, r, a)) + multiset(Rest(r));
      Cancel(after, before + Followed(cfg, r, a), multiset(Rest(r)));
    }
  }

  lemma DiscoveredBy(cfg: Config, s: Trace, a: Action)
    requires Enabled(cfg, s, a) && IsResolverStep(a)
    ensures Apply(cfg, s, a).discovered == s.discovered + Followed(cfg, s.resolvers[a.i], a)
  {
    hide Ready, After;
  }

  lemma MsgsKept(rs: seq<Resolver>, i: nat, r: Resolver)
    requires i < |rs| && r.msg == rs[i].msg
    ensures MsgsOf(rs[i := r]) == MsgsOf(rs)
  {}

  lemma ResolverStepPhased(cfg: Config, s: Trace, a: Action)
    requires Phased(s) && Counted(cfg, s) && Enabled(cfg, s, a) && IsResolverStep(a) && ResolverOk(cfg, s.resolvers[a.i])
    ensures Phased(Apply(cfg, s, a))
  {
    hide ResolverOk, Ready, After, Holds, Live, Late;
    StillCounted(s.resolvers, a.i);
    AfterOk(cfg, s.resolvers[a.i], a);
  }

  lemma ResolverStepInv(cfg: Config, initial: nat, s: Trace, a: Action)
    requires Inv(cfg, initial, s) && Enabled(cfg, s, a) && IsResolverStep(a)
    ensures Inv(cfg, initial, Apply(cfg, s, a))
  {
    hide Apply, Counted, Conserved, Phased;
    assert ResolverOk(cfg, s.resolvers[a.i]);
    ResolverStepCounted(cfg, s, a);
    ResolverStepShaped(cfg, s, a);
    ResolverStepConserved(cfg, initial, s, a);
    ResolverStepPhased(cfg, s, a);
  }

  lemma SpawnChange(s: Trace)
    requires s.channel != []
    ensures
      var rs := Spawn(s).resolvers;
      && Sum(rs, Holds) == Sum(s.resolvers, Holds) && Sum(rs, Live) == Sum(s.resolvers, Live) + 1
      && Sum(rs, Late) == Sum(s.resolvers, Late) && Unsent(rs) == Unsent(s.resolvers)
      && multiset(MsgsOf(rs)) + multiset(Spawn(s).channel) == multiset(MsgsOf(s.resolvers)) + multiset(s.channel)
  {
    var m := s.channel[0];
    SumSnoc(s.resolvers, Fresh(m), Holds);
    SumSnoc(s.resolvers, Fresh(m), Live);
    SumSnoc(s.resolvers, Fresh(m), Late);
    UnsentSnoc(s.resolvers, Fresh(m));
    assert MsgsOf(s.resolvers + [Fresh(m)]) == MsgsOf(s.resolvers) + [m];
    assert s.channel == [m] + s.channel[1..];
  }

  lemma SpawnDeepest(s: Trace, initial: nat)
    requires s.channel != [] && initial <= |s.resolvers|
    ensures
      var before := Deepest(MsgsOf(s.resolvers)[initial..]);
      Deepest(MsgsOf(Spawn(s).resolvers)[initial..]) == (if s.channel[0].depth > before then s.channel[0].depth else before)
  {
    var ms, m := MsgsOf(s.resolvers), s.channel[0];
    assert MsgsOf(s.resolvers + [Fresh(m)])[initial..] == ms[initial..] + [m];
    DeepestSnoc(ms[initial..], m);
  }

  // The steps of the coordinator, the waiter and the goroutine that discards.

  lemma CoordinatorStepInv(cfg: Config, initial: nat, s: Trace, a: Action)
    requires Inv(cfg, initial, s) && Enabled(cfg, s, a) && !IsResolverStep(a)
    ensures Inv(cfg, initial, Apply(cfg, s, a))
  {
    if a.TakeChild? || a.DrainChild? {
      SpawnStepInv(cfg, initial, s, a);
    } else {
      hide Counted, Shaped, Conserved, Phased, Apply, Enabled;
      OtherStepConserved(cfg, initial, s, a);
      OtherStepPhased(cfg, s, a);
      OtherStepKeeps(cfg, s, a);
    }
  }

  lemma OtherStepConserved(cfg: Config, initial: nat, s: Trace, a: Action)
    requires Conserved(initial, s) && Phased(s) && Enabled(cfg, s, a)
    requires !IsResolverStep(a) && !a.TakeChild? && !a.DrainChild?
    ensures Conserved(initial, Apply(cfg, s, a))
  {
    hide Deepest, MsgsOf, Unsent;
    if a.Discard? {
      assert s.channel == [s.channel[0]] + s.channel[1..];
    }
  }

  lemma OtherStepPhased(cfg: Config, s: Trace, a: Action)
    requires Phased(s) && Enabled(cfg, s, a) && !IsResolverStep(a) && !a.TakeChild? && !a.DrainChild?
    ensures Phased(Apply(cfg, s, a))
  {}

  lemma OtherStepKeeps(cfg: Config, s: Trace, a: Action)
    requires Counted(cfg, s) && Shaped(cfg, s) && Enabled(cfg, s, a)
    requires !IsResolverStep(a) && !a.TakeChild? && !a.DrainChild?
    ensures Counted(cfg, Apply(cfg, s, a)) && Shaped(cfg, Apply(cfg, s, a))
  {
    hide ResolverOk, DepthOk, Holds, Live, Late;
  }

  lemma SpawnStepInv(cfg: Config, initial: nat, s: Trace, a: Action)
    requires Inv(cfg, initial, s) && Enabled(cfg, s, a) && (a.TakeChild? || a.DrainChild?)
    ensures Inv(cfg, initial, Apply(cfg, s, a))
  {
    hide Conserved, Unsent, MsgsOf, Deepest, Holds, Live, Late, Sum;
    SpawnCounts(s.channel[0]);
    assert ResolverOk(cfg, Fresh(s.channel[0]));
    SpawnChange(s);
    SpawnConserved(cfg, initial, s, a);
  }

  lemma SpawnCounts(m: Msg)
    ensures Holds(Fresh(m)) == 0 && Live(Fresh(m)) == 1 && Late(Fresh(m)) == 0
  {}

  lemma SpawnConserved(cfg: Config, initial: nat, s: Trace, a: Action)
    requires Conserved(initial, s) && Enabled(cfg, s, a) && (a.TakeChild? || a.DrainChild?)
    ensures Conserved(initial, Apply(cfg, s, a))
  {
    hide Deepest, MsgsOf, Unsent;
    SpawnChange(s);
    SpawnDeepest(s, initial);
  }

  lemma StepInv(cfg: Config, initial: nat, s: Trace, a: Action)
    requires Inv(cfg, initial, s) && Enabled(cfg, s, a)
    ensures Inv(cfg, initial, Apply(cfg, s, a))
  {
    if IsResolverStep(a) {
      ResolverStepInv(cfg, initial, s, a);
    } else {
      CoordinatorStepInv(cfg, initial, s, a);
    }
  }

  lemma {:induction false} RunInv(cfg: Config, initial: nat, s: Trace, run: seq<Action>)
    requires Inv(cfg, initial, s) && Legal(cfg, s, run)
    ensures Inv(cfg, initial, Run(cfg, s, run))
    decreases run
  {
    if run != [] {
      StepInv(cfg, initial, s, run[0]);
      RunInv(cfg, initial, Apply(cfg, s, run[0]), run[1..]);
    }
  }

  /** The history of messages found is what the matches of the run say. */
  lemma {:induction false} DiscoveredAlong(cfg: Config, s: Trace, run: seq<Action>)
    requires Legal(cfg, s, run)
    ensures Run(cfg, s, run).discovered == s.discovered + FollowedAlong(cfg, s, run)
    decreases run
  {
    hide Followed;
    if run != [] {
      DiscoveredAlong(cfg, Apply(cfg, s, run[0]), run[1..]);
      if IsResolverStep(run[0]) {
        DiscoveredBy(cfg, s, run[0]);
      }
    }
  }
}
