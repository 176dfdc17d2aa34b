/** A trace always can go on until it ends, and it ends: progress, a measure that every step lowers,
    and a bound on the resolvers it spawns. */
module TraceBounds {
  import opened Sums
  import opened TraceMachine
  import opened TraceSafety
  import opened TraceOutcome

  // ---------------------------------------------------------------- progress

  ghost predicate Over(s: Trace) { s.coordinator.Completed? || s.coordinator.Cancelled? }

  /** Some resolver can step, or the channel holds a message: a full channel and a full semaphore never
      block everyone. */
  lemma SomeoneCanStep(cfg: Config, initial: nat, s: Trace) returns (a: Action)
    requires Inv(cfg, initial, s) && !s.crashed && cfg.maxResolvers >= 1 && s.group > 0 && s.channel == []
    ensures IsResolverStep(a) && Enabled(cfg, s, a)
  {
    if i :| 0 <= i < |s.resolvers| && !s.resolvers[i].stage.Gone? && !s.resolvers[i].stage.Queued? {
      match s.resolvers[i].stage
      case Polling => a := TimeOut(i);
      case Sending(rest) => a := if rest == [] then EndSend(i) else Send(i);
      case Returning => a := ReleasePermit(i);
      case Unlocked => a := LeaveGroup(i);
    } else {
      SumZero(s.resolvers, Live);
      SumZero(s.resolvers, Holds);
      var i :| 0 <= i < |s.resolvers| && Live(s.resolvers[i]) != 0;
      a := Acquire(i);
    }
  }

  /** Until the coordinator returns, some step other than a cancel is enabled. */
  lemma Progress(cfg: Config, initial: nat, s: Trace) returns (a: Action)
    requires Inv(cfg, initial, s) && !s.crashed && !Over(s) && cfg.maxResolvers >= 1
    ensures Enabled(cfg, s, a) && !a.Cancel?
  {
    if s.coordinator.Draining? {
      a := if s.channel == [] then Complete else DrainChild;
    } else if s.channel != [] {
      a := if s.coordinator.Selecting? then TakeChild else Discard;
    } else {
      match s.waiter
      case Launched => a := EnterWait;
      case Waiting => a := SomeoneCanStep(cfg, initial, s);
      case Woken => a := Signal;
      case Signalled => a := if s.coordinator.Selecting? then TakeDone else CloseChannel;
    }
  }

  /** With no permits at all, a trace with any message can only be cancelled, and never returns. */
  lemma {:induction false} NoPermitsNoProgress(cfg: Config, s: Trace, run: seq<Action>)
    requires cfg.maxResolvers == 0 && Legal(cfg, s, run)
    requires s.group > 0 && !Fired(s) && (s.coordinator.Selecting? || s.coordinator.Cancelling?)
    requires forall i :: 0 <= i < |s.resolvers| ==> s.resolvers[i].stage.Queued?
    ensures !Over(Run(cfg, s, run))
    decreases run
  {
    if run != [] {
      NoPermitsNoProgress(cfg, Apply(cfg, s, run[0]), run[1..]);
    }
  }

  // ---------------------------------------------------------------- termination

  /** The most steps a message with so many levels below it can cause once it is in the channel. */
  function Cost(fanout: nat, below: nat): nat
    decreases below
  {
    12 + (if below == 0 then 0 else fanout * (Cost(fanout, below - 1) + 1))
  }

  function Below(cfg: Config, m: Msg): nat { if m.depth >= cfg.maxDepth then 0 else cfg.maxDepth - m.depth }

  function MsgCost(cfg: Config, m: Msg): nat { Cost(cfg.fanout, Below(cfg, m)) }

  function ResolverCost(cfg: Config, r: Resolver): nat {
    match r.stage
    case Queued => MsgCost(cfg, r.msg) - 6
    case Polling => MsgCost(cfg, r.msg) - 7
    case Sending(rest) => 4 + |rest| * (if Below(cfg, r.msg) == 0 then 0 else Cost(cfg.fanout, Below(cfg, r.msg) - 1) + 1)
    case Returning => 3
    case Unlocked => 2
    case Gone => 0
  }

  function CoordinatorCost(s: Trace): nat {
    (match s.coordinator case Selecting => 2 case Draining => 1 case Cancelling => 1 case Completed => 0 case Cancelled => 0)
    + (match s.waiter case Launched => 3 case Waiting => 2 case Woken => 1 case Signalled => 0)
    + (if s.crashed then 0 else 1)
  }

  function MsgWeight(cfg: Config): Msg -> nat { m => MsgCost(cfg, m) }

  function ResolverWeight(cfg: Config): Resolver -> nat { r => ResolverCost(cfg, r) }

  function Measure(cfg: Config, s: Trace): nat {
    Sum(s.channel, MsgWeight(cfg)) + Sum(s.resolvers, ResolverWeight(cfg)) + CoordinatorCost(s)
  }

  lemma MulMono(a: nat, b: nat, c: nat)
    requires a <= b
    ensures a * c <= b * c
  {}

  /** What a resolver's step costs, counting the message it may add to the channel. */
  lemma ResolverCostFalls(cfg: Config, r: Resolver, a: Action)
    requires IsResolverStep(a) && Ready(cfg, r, a) && ResolverOk(cfg, r)
    ensures ResolverCost(cfg, After(cfg, r, a)) + (if a.Send? then MsgCost(cfg, r.stage.rest[0]) else 0) < ResolverCost(cfg, r)
  {
    var below := Below(cfg, r.msg);
    if a.Match? && below > 0 {
      MulMono(|a.children|, cfg.fanout, Cost(cfg.fanout, below - 1) + 1);
    } else if a.Send? {
      assert Below(cfg, r.stage.rest[0]) == below - 1;
      var each := Cost(cfg.fanout, below - 1) + 1;
      assert |r.stage.rest| * each == each + |r.stage.rest[1..]| * each;
    }
  }

  lemma CoordinatorCostKept(cfg: Config, s: Trace, a: Action)
    requires Enabled(cfg, s, a) && IsResolverStep(a)
    ensures CoordinatorCost(Apply(cfg, s, a)) + (if a.Send? && s.closed then 1 else 0) <= CoordinatorCost(s)
  {
    hide Ready, After;
  }

  lemma ResolverStepFalls(cfg: Config, s: Trace, a: Action)
    requires Enabled(cfg, s, a) && IsResolverStep(a) && ResolverOk(cfg, s.resolvers[a.i])
    ensures Measure(cfg, Apply(cfg, s, a)) < Measure(cfg, s)
  {
    hide ResolverOk, Ready, After, ResolverCost, MsgCost, CoordinatorCost;
    var r := s.resolvers[a.i];
    CoordinatorCostKept(cfg, s, a);
    ResolverCostFalls(cfg, r, a);
    SumUpdate(s.resolvers, a.i, After(cfg, r, a), ResolverWeight(cfg));
    if a.Send? && !s.closed {
      SendDepth(cfg, r, a);
      SumSnoc(s.channel, r.stage.rest[0], MsgWeight(cfg));
    }
  }

  lemma HeadWeight(cfg: Config, s: Trace)
    requires s.channel != []
    ensures Sum(s.channel, MsgWeight(cfg)) == MsgCost(cfg, s.channel[0]) + Sum(s.channel[1..], MsgWeight(cfg))
  {
    assert s.channel == [s.channel[0]] + s.channel[1..];
    SumConcat([s.channel[0]], s.channel[1..], MsgWeight(cfg));
    SumSnoc([], s.channel[0], MsgWeight(cfg));
  }

  lemma SpawnCost(cfg: Config, m: Msg)
    ensures ResolverCost(cfg, Fresh(m)) + 6 == MsgCost(cfg, m) && MsgCost(cfg, m) >= 12
  {}

  lemma SpawnFalls(cfg: Config, s: Trace, a: Action)
    requires Enabled(cfg, s, a) && (a.TakeChild? || (a.DrainChild? && s.waiter.Signalled?))
    ensures Measure(cfg, Apply(cfg, s, a)) < Measure(cfg, s)
  {
    hide MsgCost, ResolverCost, Sum, Fired;
    HeadWeight(cfg, s);
    SpawnCost(cfg, s.channel[0]);
    SumSnoc(s.resolvers, Fresh(s.channel[0]), ResolverWeight(cfg));
  }

  lemma CoordinatorStepFalls(cfg: Config, s: Trace, a: Action)
    requires Enabled(cfg, s, a) && !IsResolverStep(a) && (a.DrainChild? ==> s.waiter.Signalled?)
    ensures Measure(cfg, Apply(cfg, s, a)) < Measure(cfg, s)
  {
    hide MsgCost, ResolverCost, Sum;
    if a.TakeChild? || a.DrainChild? {
      SpawnFalls(cfg, s, a);
    } else if a.Discard? {
      HeadWeight(cfg, s);
      SpawnCost(cfg, s.channel[0]);
    }
  }

  lemma StepFalls(cfg: Config, initial: nat, s: Trace, a: Action)
    requires Inv(cfg, initial, s) && Enabled(cfg, s, a)
    ensures Measure(cfg, Apply(cfg, s, a)) < Measure(cfg, s)
  {
    hide Measure, Counted, Conserved;
    if IsResolverStep(a) {
      assert ResolverOk(cfg, s.resolvers[a.i]);
      ResolverStepFalls(cfg, s, a);
    } else {
      CoordinatorStepFalls(cfg, s, a);
    }
  }

  lemma {:induction false} RunIsBounded(cfg: Config, initial: nat, s: Trace, run: seq<Action>)
    requires Inv(cfg, initial, s) && Legal(cfg, s, run)
    ensures |run| + Measure(cfg, Run(cfg, s, run)) <= Measure(cfg, s)
    decreases run
  {
    hide Measure, Inv;
    if run != [] {
      StepFalls(cfg, initial, s, run[0]);
      StepInv(cfg, initial, s, run[0]);
      RunIsBounded(cfg, initial, Apply(cfg, s, run[0]), run[1..]);
    }
  }

  lemma StartMeasure(cfg: Config, initial: seq<Msg>)
    requires FromRoot(cfg, initial)
    ensures Measure(cfg, Start(initial)) == |initial| * (Cost(cfg.fanout, cfg.maxDepth - 1) - 6) + 6
  {
    SumEqual(FreshAll(initial), ResolverWeight(cfg), Cost(cfg.fanout, cfg.maxDepth - 1) - 6);
  }

  /** Every run of a trace is finite, with a bound known when it starts. */
  lemma TraceTerminates(cfg: Config, initial: seq<Msg>, run: seq<Action>)
    requires FromRoot(cfg, initial) && Legal(cfg, Start(initial), run)
    ensures |run| <= |initial| * (Cost(cfg.fanout, cfg.maxDepth - 1) - 6) + 6
  {
    hide Legal, Run, Inv, Measure;
    StartInv(cfg, initial);
    RunIsBounded(cfg, |initial|, Start(initial), run);
    StartMeasure(cfg, initial);
  }

  /** From every reachable state the trace can go on to its end without a cancel. Unless it was already
      being cancelled, that end is a completion, and nothing is sent on a closed channel on the way. */
  lemma {:induction false} CanFinish(cfg: Config, initial: nat, s: Trace) returns (run: seq<Action>)
    requires Inv(cfg, initial, s) && cfg.maxResolvers >= 1
    ensures Legal(cfg, s, run) && (forall k :: 0 <= k < |run| ==> !run[k].Cancel?)
    ensures Over(Run(cfg, s, run))
    ensures !s.coordinator.Cancelling? && !s.coordinator.Cancelled? ==>
      Run(cfg, s, run).coordinator.Completed? && !Run(cfg, s, run).crashed
    decreases Measure(cfg, s)
  {
    hide Counted, Shaped, Conserved, Measure, Apply, Enabled;
    if Over(s) {
      run := [];
    } else {
      var a := Progress(cfg, initial, s);
      StepInv(cfg, initial, s, a);
      StepFalls(cfg, initial, s, a);
      if !s.coordinator.Cancelling? {
        StaysUncancelled(cfg, s, a);
      }
      var rest := CanFinish(cfg, initial, Apply(cfg, s, a));
      run := [a] + rest;
      assert run[1..] == rest;
    }
  }

  lemma StaysUncancelled(cfg: Config, s: Trace, a: Action)
    requires Enabled(cfg, s, a) && !a.Cancel? && !s.coordinator.Cancelling? && !s.coordinator.Cancelled?
    ensures !Apply(cfg, s, a).coordinator.Cancelling? && !Apply(cfg, s, a).coordinator.Cancelled?
  {}

  // ---------------------------------------------------------------- how many resolvers

  function Pow(b: nat, e: nat): nat
    decreases e
  {
    if e == 0 then 1 else b * Pow(b, e - 1)
  }

  /** 1 + b + ... + b^(n-1) */
  function Geometric(b: nat, n: nat): nat
    decreases n
  {
    if n == 0 then 0 else Geometric(b, n - 1) + Pow(b, n - 1)
  }

  /** The same sum by its first term: a message and the subtrees of its children. */
  lemma {:induction false} GeometricUnfolds(b: nat, n: nat)
    ensures Geometric(b, n + 1) == 1 + b * Geometric(b, n)
    decreases n
  {
    if n == 0 {
      assert Geometric(b, 1) == Geometric(b, 0) + Pow(b, 0);
    } else {
      GeometricUnfolds(b, n - 1);
      assert b * (Geometric(b, n - 1) + Pow(b, n - 1)) == b * Geometric(b, n - 1) + b * Pow(b, n - 1);
    }
  }

  /** The resolvers one message can still lead to, itself included. */
  function Subtree(cfg: Config, m: Msg): nat { Geometric(cfg.fanout, Below(cfg, m) + 1) }

  /** The resolvers a resolver can still lead to, itself not included. */
  function Offspring(cfg: Config, r: Resolver): nat {
    match r.stage
    case Queued => cfg.fanout * Geometric(cfg.fanout, Below(cfg, r.msg))
    case Polling => cfg.fanout * Geometric(cfg.fanout, Below(cfg, r.msg))
    case Sending(rest) => |rest| * Geometric(cfg.fanout, Below(cfg, r.msg))
    case _ => 0
  }

  function SubtreeWeight(cfg: Config): Msg -> nat { m => Subtree(cfg, m) }

  function OffspringWeight(cfg: Config): Resolver -> nat { r => Offspring(cfg, r) }

  function Potential(cfg: Config, s: Trace): nat {
    |s.resolvers| + Sum(s.channel, SubtreeWeight(cfg)) + Sum(s.resolvers, OffspringWeight(cfg))
  }

  lemma OffspringKept(cfg: Config, r: Resolver, a: Action)
    requires IsResolverStep(a) && Ready(cfg, r, a) && ResolverOk(cfg, r)
    ensures Offspring(cfg, After(cfg, r, a)) + (if a.Send? then Subtree(cfg, r.stage.rest[0]) else 0) <= Offspring(cfg, r)
  {
    var each := Geometric(cfg.fanout, Below(cfg, r.msg));
    if a.Match? {
      MulMono(|a.children|, cfg.fanout, each);
    } else if a.Send? {
      assert Below(cfg, r.stage.rest[0]) == Below(cfg, r.msg) - 1;
      assert |r.stage.rest| * each == each + |r.stage.rest[1..]| * each;
    }
  }

  lemma ResolverStepPotential(cfg: Config, s: Trace, a: Action)
    requires Enabled(cfg, s, a) && IsResolverStep(a) && ResolverOk(cfg, s.resolvers[a.i])
    ensures Potential(cfg, Apply(cfg, s, a)) <= Potential(cfg, s)
  {
    hide ResolverOk, Ready, After, Offspring, Subtree;
    var r := s.resolvers[a.i];
    OffspringKept(cfg, r, a);
    SumUpdate(s.resolvers, a.i, After(cfg, r, a), OffspringWeight(cfg));
    if a.Send? && !s.closed {
      SendDepth(cfg, r, a);
      SumSnoc(s.channel, r.stage.rest[0], SubtreeWeight(cfg));
    }
  }

  lemma CoordinatorStepPotential(cfg: Config, s: Trace, a: Action)
    requires Enabled(cfg, s, a) && !IsResolverStep(a)
    ensures Potential(cfg, Apply(cfg, s, a)) <= Potential(cfg, s)
  {
    if a.TakeChild? || a.DrainChild? || a.Discard? {
      var m := s.channel[0];
      assert s.channel == [m] + s.channel[1..];
      SumConcat([m], s.channel[1..], SubtreeWeight(cfg));
      SumSnoc([], m, SubtreeWeight(cfg));
      SumSnoc(s.resolvers, Fresh(m), OffspringWeight(cfg));
      GeometricUnfolds(cfg.fanout, Below(cfg, m));
    }
  }

  lemma {:induction false} PotentialNeverGrows(cfg: Config, initial: nat, s: Trace, run: seq<Action>)
    requires Inv(cfg, initial, s) && Legal(cfg, s, run)
    ensures Potential(cfg, Run(cfg, s, run)) <= Potential(cfg, s)
    decreases run
  {
    hide Potential, Counted, Conserved, Phased;
    if run != [] {
      if IsResolverStep(run[0]) {
        assert ResolverOk(cfg, s.resolvers[run[0].i]);
        ResolverStepPotential(cfg, s, run[0]);
      } else {
        CoordinatorStepPotential(cfg, s, run[0]);
      }
      StepInv(cfg, initial, s, run[0]);
      PotentialNeverGrows(cfg, initial, Apply(cfg, s, run[0]), run[1..]);
    }
  }

  lemma StartPotential(cfg: Config, initial: seq<Msg>)
    requires FromRoot(cfg, initial)
    ensures Potential(cfg, Start(initial)) == |initial| * Geometric(cfg.fanout, cfg.maxDepth)
  {
    hide Geometric;
    var each := Geometric(cfg.fanout, cfg.maxDepth);
    GeometricUnfolds(cfg.fanout, cfg.maxDepth - 1);
    SumEqual(FreshAll(initial), OffspringWeight(cfg), each - 1);
    assert |initial| * each == |initial| + |initial| * (each - 1);
  }

  /** A trace spawns at most |initial| * (1 + B + ... + B^(maxDepth-1)) resolvers, B being the most
      internal messages one transaction sends. */
  lemma SpawnBound(cfg: Config, initial: seq<Msg>, run: seq<Action>)
    requires FromRoot(cfg, initial) && Legal(cfg, Start(initial), run)
    ensures |Run(cfg, Start(initial), run).resolvers| <= |initial| * Geometric(cfg.fanout, cfg.maxDepth)
  {
    hide Legal, Run, Inv;
    StartInv(cfg, initial);
    PotentialNeverGrows(cfg, |initial|, Start(initial), run);
    StartPotential(cfg, initial);
  }
}
