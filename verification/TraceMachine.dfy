/** The trace coordinator with its resolvers, semaphore, bounded channel, wait group and waiter, as
    a state machine. Every action is one step of one goroutine. */
module TraceMachine {

  /** A pending internal message: its content and its depth in the trace. */
  datatype Msg = Msg(hash: nat, depth: nat)

  /** maxDepth after clamping, the size of the semaphore, and the most internal messages that one
      transaction sends. */
  datatype Config = Config(maxDepth: nat, maxResolvers: nat, fanout: nat)

  const CHANNEL_SIZE: nat := 64

  /** Where a resolver goroutine is: before the semaphore, polling the account, writing children to
      the channel, past resolveMessage, past the semaphore release, past the wait group. */
  datatype Stage = Queued | Polling | Sending(rest: seq<Msg>) | Returning | Unlocked | Gone

  datatype Resolver = Resolver(msg: Msg, stage: Stage, attempts: nat, timedOut: bool)

  /** The coordinator: in its select, in the drain loop, waiting for doneCh after a cancel, returned. */
  datatype Coordinator = Selecting | Draining | Cancelling | Completed | Cancelled

  /** The goroutine behind doneCh: launched, blocked in wg.Wait, past it, and after closing doneCh. */
  datatype Waiter = Launched | Waiting | Woken | Signalled

  /** stale, discovered, dropped and crashed are history: whether a child was spawned although the
      current waiter had already seen the wait group at zero, all messages found so far, those
      discarded by a cancel, and a send on the closed channel. */
  datatype Trace = Trace(
    coordinator: Coordinator,
    channel: seq<Msg>,
    closed: bool,
    resolvers: seq<Resolver>,
    permits: nat,
    group: nat,
    waiter: Waiter,
    totalTxs: nat,
    maxDepthReached: nat,
    timedOut: nat,
    stale: bool,
    discovered: multiset<Msg>,
    dropped: multiset<Msg>,
    crashed: bool)

  datatype Action =
    | Acquire(i: nat)
    | TimeOut(i: nat)
    | Match(i: nat, children: seq<Msg>, delivered: bool)
    | Send(i: nat)
    | EndSend(i: nat)
    | ReleasePermit(i: nat)
    | LeaveGroup(i: nat)
    | EnterWait
    | Signal
    | TakeChild
    | TakeDone
    | DrainChild
    | Complete
    | Cancel
    | Discard
    | CloseChannel

  function Fresh(m: Msg): Resolver { Resolver(m, Queued, 0, false) }

  function FreshAll(ms: seq<Msg>): (rs: seq<Resolver>)
    ensures |rs| == |ms| && forall i :: 0 <= i < |ms| ==> rs[i] == Fresh(ms[i])
  {
    seq(|ms|, i requires 0 <= i < |ms| => Fresh(ms[i]))
  }

  /** The coordinator enters its loop: the messages of the root transaction are spawned. */
  function Start(initial: seq<Msg>): Trace {
    Trace(Selecting, [], false, FreshAll(initial), 0, |initial|, Launched, 0, 0, 0, false, multiset(initial), multiset{}, false)
  }

  predicate IsResolverStep(a: Action) {
    a.Acquire? || a.TimeOut? || a.Match? || a.Send? || a.EndSend? || a.ReleasePermit? || a.LeaveGroup?
  }

  /** Where a resolver must be to take a step. */
  predicate Ready(cfg: Config, r: Resolver, a: Action)
    requires IsResolverStep(a)
  {
    match a
    case Acquire(_) => r.stage.Queued?
    case TimeOut(_) => r.stage.Polling?
    case Match(_, children, _) =>
      r.stage.Polling? && |children| <= cfg.fanout && forall k :: 0 <= k < |children| ==> children[k].depth == r.msg.depth + 1
    case Send(_) => r.stage.Sending? && r.stage.rest != []
    case EndSend(_) => r.stage == Sending([])
    case ReleasePermit(_) => r.stage.Returning?
    case LeaveGroup(_) => r.stage.Unlocked?
  }

  /** The resolver after its step. A timeout, and a match, make its one attempt at an event. Children
      are followed only if the event was delivered and the trace may go deeper. */
  function After(cfg: Config, r: Resolver, a: Action): Resolver
    requires IsResolverStep(a) && Ready(cfg, r, a)
  {
    match a
    case Acquire(_) => r.(stage := Polling)
    case TimeOut(_) => Resolver(r.msg, Returning, r.attempts + 1, true)
    case Match(_, children, delivered) =>
      Resolver(r.msg, if delivered && r.msg.depth < cfg.maxDepth then Sending(children) else Returning, r.attempts + 1, r.timedOut)
    case Send(_) => r.(stage := Sending(r.stage.rest[1..]))
    case EndSend(_) => r.(stage := Returning)
    case ReleasePermit(_) => r.(stage := Unlocked)
    case LeaveGroup(_) => r.(stage := Gone)
  }

  /** The messages that a step finds: the children of a delivered match above the depth limit. */
  function Followed(cfg: Config, r: Resolver, a: Action): multiset<Msg> {
    if a.Match? && a.delivered && r.msg.depth < cfg.maxDepth then multiset(a.children) else multiset{}
  }

  /** A send on a closed channel ends the process. */
  predicate Enabled(cfg: Config, s: Trace, a: Action) {
    && !s.crashed
    && (IsResolverStep(a) ==> a.i < |s.resolvers| && Ready(cfg, s.resolvers[a.i], a))
    && match a
       case Acquire(_) => s.permits < cfg.maxResolvers
       case Send(_) => s.closed || |s.channel| < CHANNEL_SIZE
       case EnterWait => s.waiter.Launched?
       case Signal => s.waiter.Woken?
       case TakeChild => s.coordinator.Selecting? && s.channel != []
       case TakeDone => s.coordinator.Selecting? && s.waiter.Signalled?
       case DrainChild => s.coordinator.Draining? && s.channel != []
       case Complete => s.coordinator.Draining? && s.channel == []
       case Cancel => s.coordinator.Selecting?
       case Discard => (s.coordinator.Cancelling? || s.coordinator.Cancelled?) && s.channel != []
       case CloseChannel => s.coordinator.Cancelling? && s.waiter.Signalled?
       case _ => true
  }

  function ResolverStep(cfg: Config, s: Trace, a: Action): Trace
    requires IsResolverStep(a) && Enabled(cfg, s, a)
  {
    var r := s.resolvers[a.i];
    var next := s.(resolvers := s.resolvers[a.i := After(cfg, r, a)]);
    match a
    case Acquire(_) => next.(permits := s.permits + 1)
    case TimeOut(_) => next.(timedOut := s.timedOut + 1)
    case Match(_, _, _) => next.(discovered := s.discovered + Followed(cfg, r, a))
    case Send(_) =>
      if s.closed then s.(crashed := true)
      else next.(channel := s.channel + [r.stage.rest[0]])
    case ReleasePermit(_) => next.(permits := if s.permits == 0 then 0 else s.permits - 1)
    case LeaveGroup(_) =>
      var left := if s.group == 0 then 0 else s.group - 1;
      next.(group := left, waiter := if left == 0 && s.waiter.Waiting? then Woken else s.waiter)
    case _ => next
  }

  /** The current waiter has seen the wait group at zero. */
  predicate Fired(s: Trace) { s.waiter.Woken? || s.waiter.Signalled? }

  /** spawnResolver for the message at the head of the channel. */
  function Spawn(s: Trace): Trace
    requires s.channel != []
  {
    var m := s.channel[0];
    s.(channel := s.channel[1..], resolvers := s.resolvers + [Fresh(m)], group := s.group + 1,
       totalTxs := s.totalTxs + 1, maxDepthReached := if m.depth > s.maxDepthReached then m.depth else s.maxDepthReached)
  }

  function Apply(cfg: Config, s: Trace, a: Action): Trace
    requires Enabled(cfg, s, a)
  {
    if IsResolverStep(a) then ResolverStep(cfg, s, a)
    else
      match a
      case EnterWait => s.(waiter := if s.group == 0 then Woken else Waiting)
      case Signal => s.(waiter := Signalled)
      case TakeChild => Spawn(s).(stale := s.stale || Fired(s))
      case TakeDone => s.(coordinator := Draining)
      case DrainChild => Spawn(s).(coordinator := Selecting, waiter := Launched, stale := false)
      case Complete => s.(coordinator := Completed)
      case Cancel => s.(coordinator := Cancelling)
      case Discard => s.(channel := s.channel[1..], dropped := s.dropped + multiset{s.channel[0]})
      case CloseChannel => s.(coordinator := Cancelled, closed := true)
  }

  // ---------------------------------------------------------------- runs

  ghost predicate Legal(cfg: Config, s: Trace, run: seq<Action>)
    decreases run
  {
    run == [] || (Enabled(cfg, s, run[0]) && Legal(cfg, Apply(cfg, s, run[0]), run[1..]))
  }

  ghost function Run(cfg: Config, s: Trace, run: seq<Action>): Trace
    requires Legal(cfg, s, run)
    decreases run
  {
    if run == [] then s else Run(cfg, Apply(cfg, s, run[0]), run[1..])
  }

  /** The messages that a run finds, read off its matches. */
  ghost function FollowedAlong(cfg: Config, s: Trace, run: seq<Action>): multiset<Msg>
    requires Legal(cfg, s, run)
    decreases run
  {
    if run == [] then multiset{}
    else
      (if IsResolverStep(run[0]) then Followed(cfg, s.resolvers[run[0].i], run[0]) else multiset{})
      + FollowedAlong(cfg, Apply(cfg, s, run[0]), run[1..])
  }

  lemma {:induction false} RunConcat(cfg: Config, s: Trace, a: seq<Action>, b: seq<Action>)
    requires Legal(cfg, s, a) && Legal(cfg, Run(cfg, s, a), b)
    ensures Legal(cfg, s, a + b) && Run(cfg, s, a + b) == Run(cfg, Run(cfg, s, a), b)
    decreases a
  {
    hide Apply, Enabled;
    if a == [] {
      assert a + b == b;
    } else {
      RunConcat(cfg, Apply(cfg, s, a[0]), a[1..], b);
      assert (a + b)[1..] == a[1..] + b;
    }
  }

  /** One more step after a run. */
  lemma Then(cfg: Config, s: Trace, run: seq<Action>, a: Action) returns (longer: seq<Action>)
    requires Legal(cfg, s, run) && Enabled(cfg, Run(cfg, s, run), a)
    ensures longer == run + [a] && Legal(cfg, s, longer) && Run(cfg, s, longer) == Apply(cfg, Run(cfg, s, run), a)
  {
    hide Apply, Enabled;
    longer := run + [a];
    var end := Run(cfg, s, run);
    assert [a][1..] == [];
    assert Legal(cfg, Apply(cfg, end, a), []);
    RunConcat(cfg, s, run, [a]);
  }
}
