/** The two ways a trace can go wrong, with the exact conditions: completion announced over a live
    resolver, and the channel closed, and written to, under one. */
module TraceFailures {
  import opened TraceMachine
  import opened TraceSafety
  import opened TraceOutcome
  import opened TraceBounds

  // ---------------------------------------------------------------- from a given state

  /** Steps of the coordinator, the waiter and the goroutine that discards, while no resolver moves. */
  ghost predicate Quiet(cfg: Config, s: Trace, run: seq<Action>) {
    Legal(cfg, s, run) && forall k :: 0 <= k < |run| ==> !IsResolverStep(run[k])
  }

  ghost predicate SomeoneLive(s: Trace) { exists i :: 0 <= i < |s.resolvers| && !s.resolvers[i].stage.Gone? }

  ghost predicate Premature(s: Trace) { s.coordinator.Completed? && SomeoneLive(s) }

  ghost predicate ClosedOverLive(s: Trace) { s.closed && SomeoneLive(s) }

  /** The guard of both failures: the wait group is at zero or the waiter has fired already, and somebody
      is live or a child in the channel is about to be. */
  predicate Exposed(s: Trace) {
    (s.group == 0 || Fired(s)) && (s.group > 0 || s.channel != [])
  }

  /** While the wait group is up and the waiter has not fired, nothing completes and nothing is closed. */
  lemma {:induction false} GroupUpHolds(cfg: Config, s: Trace, run: seq<Action>)
    requires Quiet(cfg, s, run) && s.group > 0 && !Fired(s) && !s.closed
    requires s.coordinator.Selecting? || s.coordinator.Cancelling?
    ensures !Run(cfg, s, run).coordinator.Completed? && !Run(cfg, s, run).closed
    decreases run
  {
    if run != [] {
      assert !IsResolverStep(run[0]);
      GroupUpHolds(cfg, Apply(cfg, s, run[0]), run[1..]);
    }
  }

  /** With nothing in the channel nothing is spawned. */
  lemma {:induction false} EmptySpawnsNothing(cfg: Config, s: Trace, run: seq<Action>)
    requires Quiet(cfg, s, run) && s.channel == []
    ensures Run(cfg, s, run).resolvers == s.resolvers
    decreases run
  {
    if run != [] {
      assert !IsResolverStep(run[0]);
      EmptySpawnsNothing(cfg, Apply(cfg, s, run[0]), run[1..]);
    }
  }

  lemma NotExposedIsSafe(cfg: Config, initial: nat, s: Trace, run: seq<Action>)
    requires Inv(cfg, initial, s) && s.coordinator.Selecting? && !Exposed(s) && Quiet(cfg, s, run)
    ensures !Premature(Run(cfg, s, run)) && !ClosedOverLive(Run(cfg, s, run))
  {
    hide Conserved, Shaped;
    if s.group > 0 {
      GroupUpHolds(cfg, s, run);
    } else {
      EmptySpawnsNothing(cfg, s, run);
      NobodyLive(s);
    }
  }

  lemma QuietThen(cfg: Config, s: Trace, run: seq<Action>, a: Action) returns (longer: seq<Action>)
    requires Quiet(cfg, s, run) && Enabled(cfg, Run(cfg, s, run), a) && !IsResolverStep(a)
    ensures Quiet(cfg, s, longer) && Run(cfg, s, longer) == Apply(cfg, Run(cfg, s, run), a)
  {
    longer := Then(cfg, s, run, a);
  }

  lemma Nothing(cfg: Config, s: Trace) returns (run: seq<Action>)
    ensures Quiet(cfg, s, run) && Run(cfg, s, run) == s
  {
    run := [];
  }

  /** Lets the waiter see the wait group at zero, if it has not, and close doneCh. */
  lemma WaiterFires(cfg: Config, s: Trace) returns (run: seq<Action>)
    requires (s.group == 0 && !s.waiter.Waiting?) || Fired(s)
    requires !s.crashed
    ensures Quiet(cfg, s, run) && Run(cfg, s, run) == s.(waiter := Signalled)
  {
    hide Legal, Run, Quiet;
    run := Nothing(cfg, s);
    if s.waiter.Launched? {
      run := QuietThen(cfg, s, run, EnterWait);
    }
    if !s.waiter.Signalled? {
      run := QuietThen(cfg, s, run, Signal);
    }
  }

  /** In an exposed state the waiter can fire and then a resolver is live, or can be made live, while the
      coordinator still selects. */
  lemma LateChild(cfg: Config, initial: nat, s: Trace) returns (run: seq<Action>)
    requires Inv(cfg, initial, s) && s.coordinator.Selecting? && !s.crashed && Exposed(s)
    ensures Quiet(cfg, s, run)
    ensures
      var end := Run(cfg, s, run);
      end.coordinator.Selecting? && end.waiter.Signalled? && !end.crashed && SomeoneLive(end)
  {
    hide Legal, Run, Conserved, Shaped;
    NobodyLive(s);
    run := WaiterFires(cfg, s);
    if s.group == 0 {
      run := QuietThen(cfg, s, run, TakeChild);
      assert !Run(cfg, s, run).resolvers[|s.resolvers|].stage.Gone?;
    } else {
      var i :| 0 <= i < |s.resolvers| && !s.resolvers[i].stage.Gone?;
      assert !Run(cfg, s, run).resolvers[i].stage.Gone?;
    }
  }

  /** Takes every child, then the done arm. */
  lemma {:induction false} TakeAllThenComplete(cfg: Config, s: Trace) returns (run: seq<Action>)
    requires s.coordinator.Selecting? && s.waiter.Signalled? && !s.crashed && SomeoneLive(s)
    ensures Quiet(cfg, s, run) && Premature(Run(cfg, s, run))
    decreases |s.channel|
  {
    run := Nothing(cfg, s);
    if s.channel == [] {
      run := QuietThen(cfg, s, run, TakeDone);
      run := QuietThen(cfg, s, run, Complete);
    } else {
      var next := TakeOne(cfg, s);
      var rest := TakeAllThenComplete(cfg, next);
      run := [TakeChild] + rest;
      assert run[1..] == rest;
    }
  }

  lemma TakeOne(cfg: Config, s: Trace) returns (next: Trace)
    requires s.coordinator.Selecting? && s.waiter.Signalled? && !s.crashed && SomeoneLive(s) && s.channel != []
    ensures Enabled(cfg, s, TakeChild) && next == Apply(cfg, s, TakeChild)
    ensures next.coordinator.Selecting? && next.waiter.Signalled? && !next.crashed && |next.channel| < |s.channel|
    ensures SomeoneLive(next)
  {
    next := Apply(cfg, s, TakeChild);
    var i :| 0 <= i < |s.resolvers| && !s.resolvers[i].stage.Gone?;
    assert !next.resolvers[i].stage.Gone?;
  }

  lemma QuietConcat(cfg: Config, s: Trace, a: seq<Action>, b: seq<Action>)
    requires Quiet(cfg, s, a) && Quiet(cfg, Run(cfg, s, a), b)
    ensures Quiet(cfg, s, a + b) && Run(cfg, s, a + b) == Run(cfg, Run(cfg, s, a), b)
  {
    RunConcat(cfg, s, a, b);
  }

  /** The coordinator's own next choices can announce completion over a live resolver exactly if the
      state is exposed. */
  lemma PrematureExactly(cfg: Config, initial: nat, s: Trace)
    requires Inv(cfg, initial, s) && s.coordinator.Selecting? && !s.crashed
    ensures (exists run :: Quiet(cfg, s, run) && Premature(Run(cfg, s, run))) <==> Exposed(s)
  {
    hide Inv, Legal, Run, Premature, SomeoneLive, Exposed;
    if Exposed(s) {
      var first := LateChild(cfg, initial, s);
      var second := TakeAllThenComplete(cfg, Run(cfg, s, first));
      QuietConcat(cfg, s, first, second);
      assert Quiet(cfg, s, first + second);
    } else {
      forall run | Quiet(cfg, s, run) ensures !Premature(Run(cfg, s, run)) {
        NotExposedIsSafe(cfg, initial, s, run);
      }
    }
  }

  /** A cancel, followed by no step of a resolver, can close the channel under a live resolver exactly if
      the state is exposed. */
  lemma CloseOverLiveExactly(cfg: Config, initial: nat, s: Trace)
    requires Inv(cfg, initial, s) && s.coordinator.Selecting? && !s.crashed
    ensures (exists run :: Quiet(cfg, s, run) && ClosedOverLive(Run(cfg, s, run))) <==> Exposed(s)
  {
    hide Inv, Legal, Run, Exposed;
    if Exposed(s) {
      var run := LateChild(cfg, initial, s);
      run := QuietThen(cfg, s, run, Cancel);
      run := QuietThen(cfg, s, run, CloseChannel);
      assert ClosedOverLive(Run(cfg, s, run));
    } else {
      forall run | Quiet(cfg, s, run) ensures !ClosedOverLive(Run(cfg, s, run)) {
        NotExposedIsSafe(cfg, initial, s, run);
      }
    }
  }

  // ---------------------------------------------------------------- over whole traces: what a failure needs

  ghost predicate RootsGone(s: Trace) {
    forall i :: 0 <= i < |s.resolvers| && s.resolvers[i].msg.depth == 1 ==> s.resolvers[i].stage.Gone?
  }

  ghost predicate Sender(r: Resolver) { r.stage.Sending? && r.stage.rest != [] }

  /** Only the initial messages are at depth 1; once a waiter has fired their resolvers are gone; a late
      child was counted; and a crash leaves the resolver that could not send. */
  ghost predicate Layered(initial: nat, s: Trace) {
    && (forall i :: 0 <= i < |s.channel| ==> s.channel[i].depth >= 2)
    && (forall i :: initial <= i < |s.resolvers| ==> s.resolvers[i].msg.depth >= 2)
    && (Fired(s) ==> RootsGone(s))
    && (s.stale ==> s.totalTxs > 0)
    && (s.crashed ==> s.closed && exists i :: 0 <= i < |s.resolvers| && Sender(s.resolvers[i]))
  }

  lemma RootsStayGone(cfg: Config, initial: nat, s: Trace, a: Action)
    requires Inv(cfg, initial, s) && (Fired(s) ==> RootsGone(s)) && Enabled(cfg, s, a) && IsResolverStep(a)
    ensures Fired(Apply(cfg, s, a)) ==> RootsGone(Apply(cfg, s, a))
  {
    hide Conserved, Ready, After, ResolverOk;
    assert ResolverOk(cfg, s.resolvers[a.i]);
    AfterOk(cfg, s.resolvers[a.i], a);
    NeverReturns(cfg, s.resolvers[a.i], a);
    if a.LeaveGroup? && !Fired(s) {
      StepInv(cfg, initial, s, a);
      NobodyLive(Apply(cfg, s, a));
    }
  }

  lemma DepthsKept(cfg: Config, initial: nat, s: Trace, a: Action)
    requires Layered(initial, s) && Enabled(cfg, s, a) && IsResolverStep(a) && ResolverOk(cfg, s.resolvers[a.i])
    ensures
      var next := Apply(cfg, s, a);
      && (forall i :: 0 <= i < |next.channel| ==> next.channel[i].depth >= 2)
      && (forall i :: initial <= i < |next.resolvers| ==> next.resolvers[i].msg.depth >= 2)
  {
    hide Ready, After, ResolverOk, RootsGone;
    AfterOk(cfg, s.resolvers[a.i], a);
    if a.Send? {
      SendIsDeep(cfg, s.resolvers[a.i], a);
    }
  }

  lemma ResolverStepLayered(cfg: Config, initial: nat, s: Trace, a: Action)
    requires Inv(cfg, initial, s) && Layered(initial, s) && Enabled(cfg, s, a) && IsResolverStep(a)
    ensures Layered(initial, Apply(cfg, s, a))
  {
    hide Counted, Conserved, Phased, Ready, After, ResolverOk, RootsGone;
    assert ResolverOk(cfg, s.resolvers[a.i]);
    RootsStayGone(cfg, initial, s, a);
    DepthsKept(cfg, initial, s, a);
    if a.Send? {
      SendIsDeep(cfg, s.resolvers[a.i], a);
    }
  }

  lemma NeverReturns(cfg: Config, r: Resolver, a: Action)
    requires IsResolverStep(a) && Ready(cfg, r, a)
    ensures !r.stage.Gone?
  {}

  lemma SendIsDeep(cfg: Config, r: Resolver, a: Action)
    requires a.Send? && Ready(cfg, r, a) && ResolverOk(cfg, r)
    ensures Sender(r) && r.stage.rest[0].depth >= 2
  {}

  lemma StepLayered(cfg: Config, initial: nat, s: Trace, a: Action)
    requires Inv(cfg, initial, s) && Layered(initial, s) && Enabled(cfg, s, a)
    ensures Layered(initial, Apply(cfg, s, a))
  {
    hide Shaped, Phased, Conserved;
    if IsResolverStep(a) {
      ResolverStepLayered(cfg, initial, s, a);
    } else if a.EnterWait? {
      NobodyLive(s);
    } else {
      CoordinatorStepLayered(cfg, initial, s, a);
    }
  }

  lemma CoordinatorStepLayered(cfg: Config, initial: nat, s: Trace, a: Action)
    requires Layered(initial, s) && Enabled(cfg, s, a) && !IsResolverStep(a) && !a.EnterWait?
    ensures Layered(initial, Apply(cfg, s, a))
  {}

  lemma {:induction false} RunLayered(cfg: Config, initial: nat, s: Trace, run: seq<Action>)
    requires Inv(cfg, initial, s) && Layered(initial, s) && Legal(cfg, s, run)
    ensures Layered(initial, Run(cfg, s, run))
    decreases run
  {
    hide Inv, Layered, Apply, Enabled;
    if run != [] {
      StepLayered(cfg, initial, s, run[0]);
      StepInv(cfg, initial, s, run[0]);
      RunLayered(cfg, initial, Apply(cfg, s, run[0]), run[1..]);
    }
  }

  lemma ReachLayered(cfg: Config, initial: seq<Msg>, run: seq<Action>)
    requires FromRoot(cfg, initial) && Legal(cfg, Start(initial), run)
    ensures Layered(|initial|, Run(cfg, Start(initial), run))
  {
    StartInv(cfg, initial);
    RunLayered(cfg, |initial|, Start(initial), run);
  }

  /** With no permits no resolver ever starts, so no child is ever found. */
  lemma {:induction false} NoPermitsNoChildren(cfg: Config, s: Trace, run: seq<Action>)
    requires cfg.maxResolvers == 0 && Legal(cfg, s, run) && s.channel == []
    requires forall i :: 0 <= i < |s.resolvers| ==> s.resolvers[i].stage.Queued?
    ensures Run(cfg, s, run).totalTxs == s.totalTxs
    decreases run
  {
    if run != [] {
      NoPermitsNoChildren(cfg, Apply(cfg, s, run[0]), run[1..]);
    }
  }

  lemma StartIsQueued(initial: seq<Msg>)
    ensures Start(initial).channel == [] && Start(initial).totalTxs == 0
    ensures forall i :: 0 <= i < |Start(initial).resolvers| ==> Start(initial).resolvers[i].stage.Queued?
  {}

  lemma {:induction false} GeometricOfZero(n: nat)
    requires n >= 1
    ensures Geometric(0, n) == 1
  {
    GeometricUnfolds(0, n - 1);
  }

  /** A trace in which a child was spawned had a root message, a permit, a child and a level for it. */
  lemma ChildNeeds(cfg: Config, initial: seq<Msg>, run: seq<Action>)
    requires FromRoot(cfg, initial) && Legal(cfg, Start(initial), run) && Run(cfg, Start(initial), run).totalTxs > 0
    ensures initial != [] && cfg.fanout >= 1 && cfg.maxResolvers >= 1 && cfg.maxDepth >= 2
  {
    hide Legal, Run, Layered, AllFound, Deepest, MsgsOf, Unsent, Start;
    var s := Run(cfg, Start(initial), run);
    TraceConservation(cfg, initial, run);
    SpawnBound(cfg, initial, run);
    if cfg.fanout == 0 {
      GeometricOfZero(cfg.maxDepth);
    }
    if cfg.maxResolvers == 0 {
      StartIsQueued(initial);
      NoPermitsNoChildren(cfg, Start(initial), run);
    }
    SpawnedDeep(cfg, initial, run, |initial|);
  }

  lemma SpawnedDeep(cfg: Config, initial: seq<Msg>, run: seq<Action>, i: nat)
    requires FromRoot(cfg, initial) && Legal(cfg, Start(initial), run)
    requires |initial| <= i < |Run(cfg, Start(initial), run).resolvers|
    ensures Run(cfg, Start(initial), run).resolvers[i].msg.depth >= 2
  {
    ReachLayered(cfg, initial, run);
  }

  /** A crash moreover needs the late child itself to have found a child. */
  lemma CrashNeeds(cfg: Config, initial: seq<Msg>, run: seq<Action>)
    requires FromRoot(cfg, initial) && Legal(cfg, Start(initial), run) && Run(cfg, Start(initial), run).crashed
    ensures initial != [] && cfg.fanout >= 1 && cfg.maxResolvers >= 1 && cfg.maxDepth >= 3
  {
    hide Legal, Run;
    var s := Run(cfg, Start(initial), run);
    Reachable(cfg, initial, run);
    ReachLayered(cfg, initial, run);
    ChildNeeds(cfg, initial, run);
    var i :| 0 <= i < |s.resolvers| && Sender(s.resolvers[i]);
    assert ResolverOk(cfg, s.resolvers[i]);
  }

  lemma PrematureNeeds(cfg: Config, initial: seq<Msg>, run: seq<Action>)
    requires FromRoot(cfg, initial) && Legal(cfg, Start(initial), run) && Premature(Run(cfg, Start(initial), run))
    ensures initial != [] && cfg.fanout >= 1 && cfg.maxResolvers >= 1 && cfg.maxDepth >= 2
  {
    hide Legal, Run;
    CompletionAccurate(cfg, initial, run);
    ReachLayered(cfg, initial, run);
    ChildNeeds(cfg, initial, run);
  }

  lemma CloseOverLiveNeeds(cfg: Config, initial: seq<Msg>, run: seq<Action>)
    requires FromRoot(cfg, initial) && Legal(cfg, Start(initial), run) && ClosedOverLive(Run(cfg, Start(initial), run))
    ensures initial != [] && cfg.fanout >= 1 && cfg.maxResolvers >= 1 && cfg.maxDepth >= 2
  {
    hide Legal, Run;
    CancelClosesAfterSenders(cfg, initial, run);
    ReachLayered(cfg, initial, run);
    ChildNeeds(cfg, initial, run);
  }

  // ---------------------------------------------------------------- over whole traces: how a failure comes about

  /** The first i resolvers have come and gone, the others have not started, and the waiter has not
      looked yet. */
  ghost predicate Retired(initial: seq<Msg>, s: Trace, i: nat) {
    && i <= |initial| == |s.resolvers| && s.group == |initial| - i && s.permits == 0
    && s.coordinator.Selecting? && s.waiter.Launched? && s.channel == [] && !s.closed && !s.crashed
    && (forall k :: i <= k < |initial| ==> s.resolvers[k] == Fresh(initial[k]))
  }

  lemma Started(cfg: Config, initial: seq<Msg>) returns (run: seq<Action>)
    ensures Legal(cfg, Start(initial), run) && Run(cfg, Start(initial), run) == Start(initial)
  {
    run := [];
  }

  /** The next resolver takes a permit, times out and leaves. */
  lemma RetireOne(cfg: Config, initial: seq<Msg>, run: seq<Action>, i: nat) returns (longer: seq<Action>)
    requires cfg.maxResolvers >= 1 && i < |initial| && Legal(cfg, Start(initial), run)
    requires Retired(initial, Run(cfg, Start(initial), run), i)
    ensures Legal(cfg, Start(initial), longer) && Retired(initial, Run(cfg, Start(initial), longer), i + 1)
  {
    hide Legal, Run, Start;
    longer := Then(cfg, Start(initial), run, Acquire(i));
    longer := Then(cfg, Start(initial), longer, TimeOut(i));
    longer := Then(cfg, Start(initial), longer, ReleasePermit(i));
    longer := Then(cfg, Start(initial), longer, LeaveGroup(i));
  }

  lemma {:induction false} RetireUpTo(cfg: Config, initial: seq<Msg>, i: nat) returns (run: seq<Action>)
    requires cfg.maxResolvers >= 1 && i <= |initial|
    ensures Legal(cfg, Start(initial), run) && Retired(initial, Run(cfg, Start(initial), run), i)
  {
    if i == 0 {
      run := Started(cfg, initial);
    } else {
      run := RetireUpTo(cfg, initial, i - 1);
      run := RetireOne(cfg, initial, run, i - 1);
    }
  }

  /** Every root resolver has left, and the last one has left a child in the channel. */
  ghost predicate HandedOver(initial: seq<Msg>, s: Trace) {
    && |s.resolvers| == |initial| && s.group == 0 && s.permits == 0 && s.channel == [Msg(0, 2)]
    && s.coordinator.Selecting? && s.waiter.Launched? && !s.closed && !s.crashed
  }

  lemma FindChild(cfg: Config, initial: seq<Msg>, run: seq<Action>, i: nat) returns (longer: seq<Action>)
    requires cfg.maxResolvers >= 1 && cfg.fanout >= 1 && cfg.maxDepth >= 2
    requires i + 1 == |initial| && initial[i].depth == 1
    requires Legal(cfg, Start(initial), run) && Retired(initial, Run(cfg, Start(initial), run), i)
    ensures Legal(cfg, Start(initial), longer) && HandedOver(initial, Run(cfg, Start(initial), longer))
  {
    hide Legal, Run, Start;
    longer := Then(cfg, Start(initial), run, Acquire(i));
    longer := Then(cfg, Start(initial), longer, Match(i, [Msg(0, 2)], true));
    longer := Then(cfg, Start(initial), longer, Send(i));
    longer := Then(cfg, Start(initial), longer, EndSend(i));
    longer := Then(cfg, Start(initial), longer, ReleasePermit(i));
    longer := Then(cfg, Start(initial), longer, LeaveGroup(i));
  }

  lemma HandOver(cfg: Config, initial: seq<Msg>) returns (run: seq<Action>)
    requires FromRoot(cfg, initial) && cfg.maxResolvers >= 1 && cfg.fanout >= 1 && cfg.maxDepth >= 2 && initial != []
    ensures Legal(cfg, Start(initial), run) && HandedOver(initial, Run(cfg, Start(initial), run))
  {
    run := RetireUpTo(cfg, initial, |initial| - 1);
    run := FindChild(cfg, initial, run, |initial| - 1);
  }

  /** A run of the program that announces completion over a live resolver. */
  lemma PrematureRun(cfg: Config, initial: seq<Msg>) returns (run: seq<Action>)
    requires FromRoot(cfg, initial) && cfg.maxResolvers >= 1 && cfg.fanout >= 1 && cfg.maxDepth >= 2 && initial != []
    ensures Legal(cfg, Start(initial), run) && Premature(Run(cfg, Start(initial), run))
  {
    hide Inv, Premature, SomeoneLive;
    run := HandOver(cfg, initial);
    var s := Run(cfg, Start(initial), run);
    Reachable(cfg, initial, run);
    PrematureExactly(cfg, |initial|, s);
    var rest :| Quiet(cfg, s, rest) && Premature(Run(cfg, s, rest));
    RunConcat(cfg, Start(initial), run, rest);
    run := run + rest;
  }

  /** A run of the program that closes the channel under a live resolver. */
  lemma ClosingRun(cfg: Config, initial: seq<Msg>) returns (run: seq<Action>)
    requires FromRoot(cfg, initial) && cfg.maxResolvers >= 1 && cfg.fanout >= 1 && cfg.maxDepth >= 2 && initial != []
    ensures Legal(cfg, Start(initial), run) && ClosedOverLive(Run(cfg, Start(initial), run))
  {
    hide Inv, ClosedOverLive, SomeoneLive;
    run := HandOver(cfg, initial);
    var s := Run(cfg, Start(initial), run);
    Reachable(cfg, initial, run);
    CloseOverLiveExactly(cfg, |initial|, s);
    var rest :| Quiet(cfg, s, rest) && ClosedOverLive(Run(cfg, s, rest));
    RunConcat(cfg, Start(initial), run, rest);
    run := run + rest;
  }

  /** The child has been taken late and has found a child of its own. */
  ghost predicate Cornered(s: Trace, i: nat) {
    && i < |s.resolvers| && Sender(s.resolvers[i])
    && s.coordinator.Selecting? && s.waiter.Signalled? && !s.closed && !s.crashed
  }

  lemma Corner(cfg: Config, initial: seq<Msg>) returns (run: seq<Action>)
    requires FromRoot(cfg, initial) && cfg.maxResolvers >= 1 && cfg.fanout >= 1 && cfg.maxDepth >= 3 && initial != []
    ensures Legal(cfg, Start(initial), run) && Cornered(Run(cfg, Start(initial), run), |initial|)
  {
    run := HandOver(cfg, initial);
    hide Legal, Run, Start;
    run := Then(cfg, Start(initial), run, EnterWait);
    run := Then(cfg, Start(initial), run, Signal);
    run := Then(cfg, Start(initial), run, TakeChild);
    run := Then(cfg, Start(initial), run, Acquire(|initial|));
    run := Then(cfg, Start(initial), run, Match(|initial|, [Msg(0, 3)], true));
  }

  /** A run of the program in which a resolver sends on the channel that the cancel path closed. */
  lemma CrashingRun(cfg: Config, initial: seq<Msg>) returns (run: seq<Action>)
    requires FromRoot(cfg, initial) && cfg.maxResolvers >= 1 && cfg.fanout >= 1 && cfg.maxDepth >= 3 && initial != []
    ensures Legal(cfg, Start(initial), run) && Run(cfg, Start(initial), run).crashed
  {
    run := Corner(cfg, initial);
    hide Legal, Run, Start;
    run := Then(cfg, Start(initial), run, Cancel);
    run := Then(cfg, Start(initial), run, CloseChannel);
    run := Then(cfg, Start(initial), run, Send(|initial|));
  }

  /** Some run of a trace announces completion over a live resolver exactly if there is a root message, a
      permit, a child and a level below the root. */
  lemma PrematurePossibleExactly(cfg: Config, initial: seq<Msg>)
    requires FromRoot(cfg, initial)
    ensures
      (exists run :: Legal(cfg, Start(initial), run) && Premature(Run(cfg, Start(initial), run)))
      <==> initial != [] && cfg.fanout >= 1 && cfg.maxResolvers >= 1 && cfg.maxDepth >= 2
  {
    hide Legal, Run, Premature;
    forall run | Legal(cfg, Start(initial), run) && Premature(Run(cfg, Start(initial), run))
      ensures initial != [] && cfg.fanout >= 1 && cfg.maxResolvers >= 1 && cfg.maxDepth >= 2
    {
      PrematureNeeds(cfg, initial, run);
    }
    if initial != [] && cfg.fanout >= 1 && cfg.maxResolvers >= 1 && cfg.maxDepth >= 2 {
      var run := PrematureRun(cfg, initial);
    }
  }

  /** Some run of a trace closes the channel under a live resolver under the same condition. */
  lemma CloseOverLivePossibleExactly(cfg: Config, initial: seq<Msg>)
    requires FromRoot(cfg, initial)
    ensures
      (exists run :: Legal(cfg, Start(initial), run) && ClosedOverLive(Run(cfg, Start(initial), run)))
      <==> initial != [] && cfg.fanout >= 1 && cfg.maxResolvers >= 1 && cfg.maxDepth >= 2
  {
    hide Legal, Run, ClosedOverLive;
    forall run | Legal(cfg, Start(initial), run) && ClosedOverLive(Run(cfg, Start(initial), run))
      ensures initial != [] && cfg.fanout >= 1 && cfg.maxResolvers >= 1 && cfg.maxDepth >= 2
    {
      CloseOverLiveNeeds(cfg, initial, run);
    }
    if initial != [] && cfg.fanout >= 1 && cfg.maxResolvers >= 1 && cfg.maxDepth >= 2 {
      var run := ClosingRun(cfg, initial);
    }
  }

  /** Some run of a trace sends on the closed channel exactly if there are, moreover, two levels below the
      root. */
  lemma CrashPossibleExactly(cfg: Config, initial: seq<Msg>)
    requires FromRoot(cfg, initial)
    ensures
      (exists run :: Legal(cfg, Start(initial), run) && Run(cfg, Start(initial), run).crashed)
      <==> initial != [] && cfg.fanout >= 1 && cfg.maxResolvers >= 1 && cfg.maxDepth >= 3
  {
    hide Legal, Run;
    forall run | Legal(cfg, Start(initial), run) && Run(cfg, Start(initial), run).crashed
      ensures initial != [] && cfg.fanout >= 1 && cfg.maxResolvers >= 1 && cfg.maxDepth >= 3
    {
      CrashNeeds(cfg, initial, run);
    }
    if initial != [] && cfg.fanout >= 1 && cfg.maxResolvers >= 1 && cfg.maxDepth >= 3 {
      var run := CrashingRun(cfg, initial);
    }
  }
}
