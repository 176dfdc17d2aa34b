/** What trace_complete means when it is accurate, and why a cancel then closes the channel only after
    every sender has returned. */
module TraceOutcome {
  import opened Sums
  import opened TraceMachine
  import opened TraceSafety

  /** The messages of the root transaction are extracted at depth 1. */
  predicate FromRoot(cfg: Config, initial: seq<Msg>) {
    cfg.maxDepth >= 1 && forall i :: 0 <= i < |initial| ==> initial[i].depth == 1
  }

  lemma Reachable(cfg: Config, initial: seq<Msg>, run: seq<Action>)
    requires FromRoot(cfg, initial) && Legal(cfg, Start(initial), run)
    ensures Inv(cfg, |initial|, Run(cfg, Start(initial), run))
  {
    StartInv(cfg, initial);
    RunInv(cfg, |initial|, Start(initial), run);
  }

  lemma NobodyLive(s: Trace)
    requires s.group == Sum(s.resolvers, Live)
    ensures s.group == 0 <==> forall i :: 0 <= i < |s.resolvers| ==> s.resolvers[i].stage.Gone?
  {
    SumZero(s.resolvers, Live);
  }

  /** The messages there are to follow: those of the root transaction and the children of every delivered
      match above the depth limit. */
  ghost function AllFound(cfg: Config, initial: seq<Msg>, run: seq<Action>): multiset<Msg>
    requires Legal(cfg, Start(initial), run)
  {
    multiset(initial) + FollowedAlong(cfg, Start(initial), run)
  }

  ghost predicate Accurate(cfg: Config, initial: seq<Msg>, run: seq<Action>)
    requires Legal(cfg, Start(initial), run)
  {
    var s := Run(cfg, Start(initial), run);
    && s.channel == []
    && (forall i :: 0 <= i < |s.resolvers| ==> s.resolvers[i].stage.Gone? && s.resolvers[i].attempts == 1)
    && multiset(MsgsOf(s.resolvers)) == AllFound(cfg, initial, run)
    && s.totalTxs == |s.resolvers| - |initial|
    && s.timedOut == |set i | 0 <= i < |s.resolvers| && s.resolvers[i].timedOut|
  }

  lemma LateCounts(rs: seq<Resolver>)
    ensures Sum(rs, Late) == |set i | 0 <= i < |rs| && rs[i].timedOut|
  {
    SumCounts(rs, Late, set i | 0 <= i < |rs| && rs[i].timedOut);
  }

  lemma HoldersCount(rs: seq<Resolver>)
    ensures
      Sum(rs, Holds) == |set i | 0 <= i < |rs| && (rs[i].stage.Polling? || rs[i].stage.Sending? || rs[i].stage.Returning?)|
  {
    SumCounts(rs, Holds, set i | 0 <= i < |rs| && (rs[i].stage.Polling? || rs[i].stage.Sending? || rs[i].stage.Returning?));
  }

  /** trace_complete is accurate unless a child was taken after the current waiter had fired: no
      resolver is live, nothing waits in the channel, every message there was to follow was spawned
      exactly once and had its one outcome, and the event's numbers are the numbers of what happened. */
  lemma CompletionAccurate(cfg: Config, initial: seq<Msg>, run: seq<Action>)
    requires FromRoot(cfg, initial) && Legal(cfg, Start(initial), run)
    ensures
      var s := Run(cfg, Start(initial), run);
      s.coordinator.Completed? && !s.stale ==> Accurate(cfg, initial, run)
  {
    hide Followed, Deepest, MsgsOf;
    var s := Run(cfg, Start(initial), run);
    Reachable(cfg, initial, run);
    NobodyLive(s);
    DiscoveredAlong(cfg, Start(initial), run);
    LateCounts(s.resolvers);
    if s.coordinator.Completed? && !s.stale {
      NothingUnsent(s.resolvers);
    }
  }

  /** In every reachable state: depths are in range, a finished resolver made exactly one attempt at
      its event, timedOut counts the timeouts, total_txs is spawned minus initial, the semaphore bounds
      the running resolvers, and every message found by a match is in exactly one place: spawned, in the
      channel, still with the resolver that found it, or dropped by a cancel. */
  lemma TraceConservation(cfg: Config, initial: seq<Msg>, run: seq<Action>)
    requires FromRoot(cfg, initial) && Legal(cfg, Start(initial), run)
    ensures
      var s := Run(cfg, Start(initial), run);
      && (forall i :: 0 <= i < |s.resolvers| ==> 1 <= s.resolvers[i].msg.depth <= cfg.maxDepth)
      && (forall i :: 0 <= i < |s.resolvers| && s.resolvers[i].stage.Gone? ==> s.resolvers[i].attempts == 1)
      && s.timedOut == |set i | 0 <= i < |s.resolvers| && s.resolvers[i].timedOut|
      && |s.resolvers| == |initial| + s.totalTxs
      && s.maxDepthReached == Deepest(MsgsOf(s.resolvers)[|initial|..])
      && AllFound(cfg, initial, run) == multiset(MsgsOf(s.resolvers)) + multiset(s.channel) + Unsent(s.resolvers) + s.dropped
      && (s.dropped != multiset{} ==> s.coordinator.Cancelling? || s.coordinator.Cancelled?)
      && s.permits <= cfg.maxResolvers
      && s.permits
         == |set i | 0 <= i < |s.resolvers|
                     && (s.resolvers[i].stage.Polling? || s.resolvers[i].stage.Sending? || s.resolvers[i].stage.Returning?)|
  {
    hide Deepest, MsgsOf, Unsent, Followed;
    Reachable(cfg, initial, run);
    DiscoveredAlong(cfg, Start(initial), run);
    var s := Run(cfg, Start(initial), run);
    LateCounts(s.resolvers);
    HoldersCount(s.resolvers);
    forall i | 0 <= i < |s.resolvers| ensures ResolverOk(cfg, s.resolvers[i]) {}
  }

  /** The cancel path closes the channel only when every sender has returned, unless stale; so only a
      stale trace can send on a closed channel. */
  lemma CancelClosesAfterSenders(cfg: Config, initial: seq<Msg>, run: seq<Action>)
    requires FromRoot(cfg, initial) && Legal(cfg, Start(initial), run)
    ensures
      var s := Run(cfg, Start(initial), run);
      && (s.closed && !s.stale ==> forall i :: 0 <= i < |s.resolvers| ==> s.resolvers[i].stage.Gone?)
      && (s.crashed ==> s.stale)
  {
    Reachable(cfg, initial, run);
    NobodyLive(Run(cfg, Start(initial), run));
  }

  /** A run that never takes the child arm between the wait group's zero and the done arm. */
  ghost predicate Timely(cfg: Config, s: Trace, run: seq<Action>)
    requires Legal(cfg, s, run)
    decreases run
  {
    run != [] ==> !(run[0].TakeChild? && Fired(s)) && Timely(cfg, Apply(cfg, s, run[0]), run[1..])
  }

  lemma {:induction false} TimelyIsNotStale(cfg: Config, s: Trace, run: seq<Action>)
    requires Legal(cfg, s, run) && Timely(cfg, s, run) && !s.stale
    ensures !Run(cfg, s, run).stale
    decreases run
  {
    if run != [] {
      TimelyIsNotStale(cfg, Apply(cfg, s, run[0]), run[1..]);
    }
  }

  /** In every timely run trace_complete is accurate and nothing is sent on a closed channel. */
  lemma TimelyCompletion(cfg: Config, initial: seq<Msg>, run: seq<Action>)
    requires FromRoot(cfg, initial) && Legal(cfg, Start(initial), run) && Timely(cfg, Start(initial), run)
    ensures
      var s := Run(cfg, Start(initial), run);
      !s.crashed && (s.coordinator.Completed? ==> Accurate(cfg, initial, run))
  {
    TimelyIsNotStale(cfg, Start(initial), run);
    CompletionAccurate(cfg, initial, run);
    CancelClosesAfterSenders(cfg, initial, run);
  }
}
