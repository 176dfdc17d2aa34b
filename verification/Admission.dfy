/** Per-client admission: the in-flight slots, the counter of subscriptions with its add, check and
    rollback, the table of subscriptions, and the configuration rule that leaves a slot for unsubscribe. */
module Admission {
  import opened Basics
  import opened Sums
  import opened Decimal

  // ---------------------------------------------------------------- configuration

  /** The values that Validate bounds; a duration is given by whether it can be parsed. */
  datatype Settings = Settings(
    maxClients: int, durationsParse: bool, maxInflight: int, maxMessageSize: int,
    subscribeOn: bool, maxSubscriptions: int, adnlOn: bool, maxPeers: int,
    overlayOn: bool, maxOverlays: int, traceOn: bool, maxDepth: int, defaultDepth: int)

  datatype Fault =
    | MaxClients | Duration | MaxInflight | MaxMessageSize | MaxSubscriptions | Headroom
    | MaxPeers | MaxOverlays | MaxDepth | DefaultDepth

  /** The first bound that is violated. */
  function Validate(c: Settings): Option<Fault> {
    if c.maxClients < 1 then Some(MaxClients)
    else if !c.durationsParse then Some(Duration)
    else if c.maxInflight < 1 then Some(MaxInflight)
    else if c.maxMessageSize < 1 then Some(MaxMessageSize)
    else if c.subscribeOn && c.maxSubscriptions < 1 then Some(MaxSubscriptions)
    else if c.subscribeOn && c.maxInflight <= c.maxSubscriptions then Some(Headroom)
    else if c.adnlOn && c.maxPeers < 1 then Some(MaxPeers)
    else if c.overlayOn && c.maxOverlays < 1 then Some(MaxOverlays)
    else if c.traceOn && c.maxDepth < 1 then Some(MaxDepth)
    else if c.traceOn && c.defaultDepth < 1 then Some(DefaultDepth)
    else None
  }

  /** A configuration is accepted exactly if every bound holds; those of a namespace only while it is on. */
  lemma AcceptedExactly(c: Settings)
    ensures
      Validate(c).None? <==>
        && c.maxClients >= 1 && c.durationsParse && c.maxInflight >= 1 && c.maxMessageSize >= 1
        && (c.subscribeOn ==> 1 <= c.maxSubscriptions < c.maxInflight)
        && (c.adnlOn ==> c.maxPeers >= 1) && (c.overlayOn ==> c.maxOverlays >= 1)
        && (c.traceOn ==> c.maxDepth >= 1 && c.defaultDepth >= 1)
  {}

  // ---------------------------------------------------------------- the machine

  /** The two limits that admission reads. */
  datatype Limits = Limits(inflight: nat, subscriptions: int)

  datatype Kind = Subscribe | Unsubscribe(key: string) | Other

  /** Where a request handler is: before the slot, refused it, inside, counted above the limit, counted
      within it, numbered, in the table, out of the table, uncounted, past the slot. */
  datatype Phase =
    | Arrived | Rejected | Entered | Refusing | Admitted | Numbered(n: nat) | Registered(n: nat) | Removed | Leaving | Done

  datatype Handler = Handler(kind: Kind, phase: Phase)

  /** slots, active and counter are inflightSem, activeSubs and subCounter; the table gives the handler
      whose context the entry cancels, and cancelled the handlers whose context has been cancelled. */
  datatype Client = Client(
    handlers: seq<Handler>, slots: nat, active: int, counter: nat, table: map<string, nat>, cancelled: set<nat>)

  datatype Action =
    | Arrive(kind: Kind)
    | TakeSlot(i: nat)
    | Reject(i: nat)
    | Count(i: nat)
    | Rollback(i: nat)
    | Number(i: nat)
    | Register(i: nat)
    | Abandon(i: nat)
    | Deregister(i: nat)
    | Uncount(i: nat)
    | Cancel(i: nat)
    | Answer(i: nat)
    | ReleaseSlot(i: nat)

  function Key(n: nat): string { "sub_" + ToString(n) }

  lemma KeyInjective(a: nat, b: nat)
    requires Key(a) == Key(b)
    ensures a == b
  {
    assert Key(a)[4..] == ToString(a) && Key(b)[4..] == ToString(b);
    ToStringInjective(a, b);
  }

  const FRESH: Client := Client([], 0, 0, 0, map[], {})

  predicate Enabled(l: Limits, c: Client, a: Action) {
    if a.Arrive? then true
    else
      a.i < |c.handlers| &&
      var h := c.handlers[a.i];
      match a
      case TakeSlot(_) => h.phase.Arrived? && c.slots < l.inflight
      case Reject(_) => h.phase.Arrived? && c.slots >= l.inflight
      case Count(_) => h.phase.Entered? && h.kind.Subscribe?
      case Rollback(_) => h.phase.Refusing?
      case Number(_) => h.phase.Admitted?
      case Register(_) => h.phase.Numbered?
      case Abandon(_) => h.phase.Admitted?
      case Deregister(_) => h.phase.Registered?
      case Uncount(_) => h.phase.Removed?
      case Cancel(_) => h.phase.Entered? && h.kind.Unsubscribe?
      case Answer(_) => h.phase.Entered? && h.kind.Other?
      case ReleaseSlot(_) => h.phase.Leaving?
  }

  function To(c: Client, i: nat, p: Phase): Client
    requires i < |c.handlers|
  {
    c.(handlers := c.handlers[i := c.handlers[i].(phase := p)])
  }

  function Apply(l: Limits, c: Client, a: Action): Client
    requires Enabled(l, c, a)
  {
    match a
    case Arrive(kind) => c.(handlers := c.handlers + [Handler(kind, Arrived)])
    case TakeSlot(i) => To(c, i, Entered).(slots := c.slots + 1)
    case Reject(i) => To(c, i, Rejected)
    case Count(i) => To(c, i, if c.active + 1 > l.subscriptions then Refusing else Admitted).(active := c.active + 1)
    case Rollback(i) => To(c, i, Leaving).(active := c.active - 1)
    case Number(i) => To(c, i, Numbered(c.counter + 1)).(counter := c.counter + 1)
    case Register(i) =>
      var n := c.handlers[i].phase.n;
      To(c, i, Registered(n)).(table := c.table[Key(n) := i])
    case Abandon(i) => To(c, i, Removed)
    case Deregister(i) => To(c, i, Removed).(table := c.table - {Key(c.handlers[i].phase.n)}, cancelled := c.cancelled + {i})
    case Uncount(i) => To(c, i, Leaving).(active := c.active - 1)
    case Cancel(i) =>
      var key := c.handlers[i].kind.key;
      if key in c.table then To(c, i, Leaving).(table := c.table - {key}, cancelled := c.cancelled + {c.table[key]})
      else To(c, i, Leaving)
    case Answer(i) => To(c, i, Leaving)
    case ReleaseSlot(i) => To(c, i, Done).(slots := if c.slots == 0 then 0 else c.slots - 1)
  }

  ghost predicate Legal(l: Limits, c: Client, run: seq<Action>)
    decreases run
  {
    run == [] || (Enabled(l, c, run[0]) && Legal(l, Apply(l, c, run[0]), run[1..]))
  }

  ghost function Run(l: Limits, c: Client, run: seq<Action>): Client
    requires Legal(l, c, run)
    decreases run
  {
    if run == [] then c else Run(l, Apply(l, c, run[0]), run[1..])
  }

  // ---------------------------------------------------------------- the invariant

  function InSlot(h: Handler): nat { if h.phase.Arrived? || h.phase.Rejected? || h.phase.Done? then 0 else 1 }

  predicate HasNumber(h: Handler) { h.phase.Numbered? || h.phase.Registered? }

  function IsAdmitted(h: Handler): nat { if h.phase.Admitted? || HasNumber(h) || h.phase.Removed? then 1 else 0 }

  function IsRefusing(h: Handler): nat { if h.phase.Refusing? then 1 else 0 }

  function Holding(c: Client): nat { Sum(c.handlers, InSlot) }

  function AdmittedCount(c: Client): nat { Sum(c.handlers, IsAdmitted) }

  function RefusingCount(c: Client): nat { Sum(c.handlers, IsRefusing) }

  ghost predicate Counted(l: Limits, c: Client) {
    && c.slots == Holding(c) <= l.inflight
    && c.active == AdmittedCount(c) + RefusingCount(c)
    && (AdmittedCount(c) > 0 ==> AdmittedCount(c) <= l.subscriptions)
  }

  /** Each numbered handler has a number of its own. */
  ghost predicate Numbers(c: Client) {
    && (forall i :: 0 <= i < |c.handlers| && HasNumber(c.handlers[i]) ==> c.handlers[i].phase.n <= c.counter)
    && (forall i, j :: 0 <= i < j < |c.handlers| && HasNumber(c.handlers[i]) && HasNumber(c.handlers[j]) ==>
          c.handlers[i].phase.n != c.handlers[j].phase.n)
  }

  /** And every entry is the entry of its handler. */
  ghost predicate Tabled(c: Client) {
    Numbers(c) && forall k :: k in c.table ==> Entry(c, k)
  }

  ghost predicate Entry(c: Client, k: string)
    requires k in c.table
  {
    c.table[k] < |c.handlers| && c.handlers[c.table[k]].phase.Registered? && k == Key(c.handlers[c.table[k]].phase.n)
  }

  /** A registered handler is listed under its own number exactly as long as its context is not cancelled;
      no context is cancelled before. */
  ghost predicate Reached(c: Client) {
    forall i :: 0 <= i < |c.handlers| ==> ReachedAt(c, i)
  }

  ghost predicate ReachedAt(c: Client, i: nat)
    requires i < |c.handlers|
  {
    var p := c.handlers[i].phase;
    && (p.Registered? ==> (i !in c.cancelled <==> Get(c.table, Key(p.n)) == Some(i)))
    && (!p.Registered? && !p.Removed? && !p.Leaving? && !p.Done? ==> i !in c.cancelled)
  }

  ghost predicate Bounded(c: Client) { forall i :: i in c.cancelled ==> i < |c.handlers| }

  ghost predicate Inv(l: Limits, c: Client) { Counted(l, c) && Tabled(c) && Reached(c) && Bounded(c) }

  lemma ToCounts(c: Client, i: nat, p: Phase)
    requires i < |c.handlers|
    ensures
      var h, g, d := c.handlers[i], c.handlers[i].(phase := p), To(c, i, p);
      && Holding(d) + InSlot(h) == Holding(c) + InSlot(g)
      && AdmittedCount(d) + IsAdmitted(h) == AdmittedCount(c) + IsAdmitted(g)
      && RefusingCount(d) + IsRefusing(h) == RefusingCount(c) + IsRefusing(g)
      && InSlot(h) <= Holding(c) && IsAdmitted(h) <= AdmittedCount(c) && IsRefusing(h) <= RefusingCount(c)
  {
    var g := c.handlers[i].(phase := p);
    SumUpdate(c.handlers, i, g, InSlot);
    SumUpdate(c.handlers, i, g, IsAdmitted);
    SumUpdate(c.handlers, i, g, IsRefusing);
    SumAtLeast(c.handlers, i, InSlot);
    SumAtLeast(c.handlers, i, IsAdmitted);
    SumAtLeast(c.handlers, i, IsRefusing);
  }

  lemma ArriveCounted(l: Limits, c: Client, a: Action)
    requires Counted(l, c) && a.Arrive?
    ensures Counted(l, Apply(l, c, a))
  {
    SumSnoc(c.handlers, Handler(a.kind, Arrived), InSlot);
    SumSnoc(c.handlers, Handler(a.kind, Arrived), IsAdmitted);
    SumSnoc(c.handlers, Handler(a.kind, Arrived), IsRefusing);
  }

  lemma HandlerStepCounted(l: Limits, c: Client, a: Action)
    requires Counted(l, c) && Enabled(l, c, a) && !a.Arrive?
    ensures Counted(l, Apply(l, c, a))
  {
    hide Holding, AdmittedCount, RefusingCount, Key;
    var d := Apply(l, c, a);
    ToCounts(c, a.i, d.handlers[a.i].phase);
    SameCounts(d, To(c, a.i, d.handlers[a.i].phase));
  }

  lemma SameCounts(c: Client, d: Client)
    requires c.handlers == d.handlers
    ensures Holding(c) == Holding(d) && AdmittedCount(c) == AdmittedCount(d) && RefusingCount(c) == RefusingCount(d)
  {}

  lemma StepCounted(l: Limits, c: Client, a: Action)
    requires Counted(l, c) && Enabled(l, c, a)
    ensures Counted(l, Apply(l, c, a))
  {
    hide Counted, Apply;
    if a.Arrive? {
      ArriveCounted(l, c, a);
    } else {
      HandlerStepCounted(l, c, a);
    }
  }

  /** A step gives its handler the next number, or leaves every number as it was. */
  lemma NumberKept(l: Limits, c: Client, a: Action, i: nat)
    requires Enabled(l, c, a) && i < |Apply(l, c, a).handlers| && HasNumber(Apply(l, c, a).handlers[i])
    ensures
      var d := Apply(l, c, a);
      if a.Number? && a.i == i then d.handlers[i].phase.n == c.counter + 1
      else i < |c.handlers| && HasNumber(c.handlers[i]) && d.handlers[i].phase.n == c.handlers[i].phase.n
    ensures Apply(l, c, a).counter == if a.Number? then c.counter + 1 else c.counter
  {
    hide Key;
  }

  lemma StepNumbers(l: Limits, c: Client, a: Action)
    requires Numbers(c) && Enabled(l, c, a)
    ensures Numbers(Apply(l, c, a))
  {
    hide Apply, Enabled;
    var hs := Apply(l, c, a).handlers;
    forall i | 0 <= i < |hs| && HasNumber(hs[i]) ensures hs[i].phase.n <= Apply(l, c, a).counter {
      NumberKept(l, c, a, i);
    }
    forall i, j | 0 <= i < j < |hs| && HasNumber(hs[i]) && HasNumber(hs[j]) ensures hs[i].phase.n != hs[j].phase.n {
      NumberKept(l, c, a, i);
      NumberKept(l, c, a, j);
    }
  }

  lemma EntryKept(l: Limits, c: Client, a: Action, k: string)
    requires Enabled(l, c, a) && k in Apply(l, c, a).table
    requires k in c.table ==> Entry(c, k)
    ensures Entry(Apply(l, c, a), k)
  {
    hide Key;
    if a.Deregister? && k in c.table {
      assert k != Key(c.handlers[a.i].phase.n);
    }
  }

  lemma StepTabled(l: Limits, c: Client, a: Action)
    requires Tabled(c) && Enabled(l, c, a)
    ensures Tabled(Apply(l, c, a))
  {
    hide Key, Apply, Enabled, Numbers, Entry;
    StepNumbers(l, c, a);
    forall k | k in Apply(l, c, a).table ensures Entry(Apply(l, c, a), k) {
      EntryKept(l, c, a, k);
    }
  }

  lemma KeysDiffer(c: Client, i: nat, j: nat)
    requires Numbers(c) && i < |c.handlers| && j < |c.handlers| && i != j
    requires HasNumber(c.handlers[i]) && HasNumber(c.handlers[j])
    ensures Key(c.handlers[i].phase.n) != Key(c.handlers[j].phase.n)
  {
    if Key(c.handlers[i].phase.n) == Key(c.handlers[j].phase.n) {
      KeyInjective(c.handlers[i].phase.n, c.handlers[j].phase.n);
    }
  }

  lemma ReachedKept(l: Limits, c: Client, a: Action, i: nat)
    requires Tabled(c) && Reached(c) && Bounded(c) && Enabled(l, c, a) && i < |Apply(l, c, a).handlers|
    ensures ReachedAt(Apply(l, c, a), i)
  {
    hide Key, Numbers;
    if i < |c.handlers| {
      assert ReachedAt(c, i);
      if !a.Arrive? && a.i != i && c.handlers[i].phase.Registered? {
        if a.Register? || a.Deregister? {
          KeysDiffer(c, i, a.i);
        } else if a.Cancel? && c.handlers[a.i].kind.key in c.table {
          assert Entry(c, c.handlers[a.i].kind.key);
        }
      }
    }
  }

  lemma StepReached(l: Limits, c: Client, a: Action)
    requires Tabled(c) && Reached(c) && Bounded(c) && Enabled(l, c, a)
    ensures Reached(Apply(l, c, a)) && Bounded(Apply(l, c, a))
  {
    hide Key, ReachedAt, Numbers;
    forall i | 0 <= i < |Apply(l, c, a).handlers| ensures ReachedAt(Apply(l, c, a), i) {
      ReachedKept(l, c, a, i);
    }
    if a.Cancel? && c.handlers[a.i].kind.key in c.table {
      assert Entry(c, c.handlers[a.i].kind.key);
    }
  }

  lemma {:induction false} RunInv(l: Limits, c: Client, run: seq<Action>)
    requires Inv(l, c) && Legal(l, c, run)
    ensures Inv(l, Run(l, c, run))
    decreases run
  {
    hide Counted, Tabled, Reached, Bounded, Apply, Enabled;
    if run != [] {
      StepCounted(l, c, run[0]);
      StepTabled(l, c, run[0]);
      StepReached(l, c, run[0]);
      RunInv(l, Apply(l, c, run[0]), run[1..]);
    }
  }

  // ---------------------------------------------------------------- what follows

  lemma Reachable(l: Limits, run: seq<Action>)
    requires Legal(l, FRESH, run)
    ensures Inv(l, Run(l, FRESH, run))
  {
    RunInv(l, FRESH, run);
  }

  function AdmittedOnes(hs: seq<Handler>): set<int> {
    set i | 0 <= i < |hs| && (hs[i].phase.Admitted? || hs[i].phase.Numbered? || hs[i].phase.Registered? || hs[i].phase.Removed?)
  }

  function RefusingOnes(hs: seq<Handler>): set<int> {
    set i | 0 <= i < |hs| && hs[i].phase.Refusing?
  }

  function HoldingOnes(hs: seq<Handler>): set<int> {
    set i | 0 <= i < |hs| && !hs[i].phase.Arrived? && !hs[i].phase.Rejected? && !hs[i].phase.Done?
  }

  lemma OnesCounted(hs: seq<Handler>)
    ensures Sum(hs, IsAdmitted) == |AdmittedOnes(hs)|
    ensures Sum(hs, IsRefusing) == |RefusingOnes(hs)|
    ensures Sum(hs, InSlot) == |HoldingOnes(hs)|
  {
    hide Sum;
    SumCounts(hs, IsAdmitted, AdmittedOnes(hs));
    SumCounts(hs, IsRefusing, RefusingOnes(hs));
    SumCounts(hs, InSlot, HoldingOnes(hs));
  }

  /** In every run: the handlers admitted as subscriptions never exceed the limit, the counter is those
      plus the ones rolling back, and the slots taken are the handlers that hold one. */
  lemma AdmissionIsBounded(l: Limits, run: seq<Action>)
    requires Legal(l, FRESH, run)
    ensures
      var c := Run(l, FRESH, run);
      && (AdmittedOnes(c.handlers) == {} || |AdmittedOnes(c.handlers)| <= l.subscriptions)
      && c.active == |AdmittedOnes(c.handlers)| + |RefusingOnes(c.handlers)|
      && c.slots == |HoldingOnes(c.handlers)| <= l.inflight
  {
    hide Legal, Run, Tabled, Reached, Bounded, AdmittedOnes, RefusingOnes, HoldingOnes;
    Reachable(l, run);
    OnesCounted(Run(l, FRESH, run).handlers);
  }

  /** Taking an entry out, by its owner's deferred delete, touches no other subscription's entry; and the
      owner's own entry is gone afterwards, whether or not an unsubscribe came first. */
  lemma DeferredDeleteIsOwn(l: Limits, run: seq<Action>, i: nat)
    requires Legal(l, FRESH, run) && Enabled(l, Run(l, FRESH, run), Deregister(i))
    ensures
      var c := Run(l, FRESH, run);
      var d := Apply(l, c, Deregister(i));
      (forall k :: k in d.table <==> k in c.table && c.table[k] != i) && i in d.cancelled
  {
    Reachable(l, run);
    var c := Run(l, FRESH, run);
    forall k | k in c.table ensures c.table[k] == i <==> k == Key(c.handlers[i].phase.n) {
      assert Entry(c, k);
      if k == Key(c.handlers[i].phase.n) {
        KeyInjective(c.handlers[c.table[k]].phase.n, c.handlers[i].phase.n);
      }
    }
  }

  /** A registered subscription can be reached by its identifier until its context is cancelled. */
  lemma RegisteredIsListed(l: Limits, run: seq<Action>, i: nat)
    requires Legal(l, FRESH, run) && i < |Run(l, FRESH, run).handlers| && Run(l, FRESH, run).handlers[i].phase.Registered?
    ensures
      var c := Run(l, FRESH, run);
      var key := Key(c.handlers[i].phase.n);
      i in c.cancelled || (key in c.table && c.table[key] == i)
  {
    Reachable(l, run);
    assert ReachedAt(Run(l, FRESH, run), i);
  }

  /** An identifier is given out once: a new entry replaces none, whatever other handlers do between
      taking the number and entering it. */
  lemma RegisterReplacesNothing(l: Limits, run: seq<Action>, i: nat)
    requires Legal(l, FRESH, run) && Enabled(l, Run(l, FRESH, run), Register(i))
    ensures var c := Run(l, FRESH, run); Key(c.handlers[i].phase.n) !in c.table
  {
    Reachable(l, run);
    var c := Run(l, FRESH, run);
    var key := Key(c.handlers[i].phase.n);
    if key in c.table {
      assert Entry(c, key);
      KeyInjective(c.handlers[i].phase.n, c.handlers[c.table[key]].phase.n);
    }
  }

  // ---------------------------------------------------------------- headroom for unsubscribe

  /** Every slot is held by an admitted subscription. */
  ghost predicate OnlySubscriptions(c: Client) {
    forall i :: 0 <= i < |c.handlers| ==> InSlot(c.handlers[i]) == IsAdmitted(c.handlers[i])
  }

  lemma {:induction false} SumsAgree<T>(s: seq<T>, f: T -> nat, g: T -> nat)
    requires forall i :: 0 <= i < |s| ==> f(s[i]) == g(s[i])
    ensures Sum(s, f) == Sum(s, g)
  {
    if s != [] {
      SumsAgree(s[..|s| - 1], f, g);
    }
  }

  /** Admits n subscriptions, one after the other. */
  lemma {:induction false} Fill(l: Limits, n: nat) returns (run: seq<Action>)
    requires n <= l.inflight && n <= l.subscriptions
    ensures Legal(l, FRESH, run)
    ensures
      var c := Run(l, FRESH, run);
      && |c.handlers| == n && c.slots == n && c.active == n
      && forall i :: 0 <= i < n ==> c.handlers[i].phase.Admitted?
  {
    hide Legal;
    if n == 0 {
      run := Nothing(l);
    } else {
      run := Fill(l, n - 1);
      run := Then(l, run, Arrive(Subscribe));
      run := Then(l, run, TakeSlot(n - 1));
      run := Then(l, run, Count(n - 1));
    }
  }

  lemma Nothing(l: Limits) returns (run: seq<Action>)
    ensures Legal(l, FRESH, run) && Run(l, FRESH, run) == FRESH
  {
    run := [];
  }

  /** One more step after a run. */
  lemma Then(l: Limits, run: seq<Action>, a: Action) returns (longer: seq<Action>)
    requires Legal(l, FRESH, run) && Enabled(l, Run(l, FRESH, run), a)
    ensures Legal(l, FRESH, longer) && Run(l, FRESH, longer) == Apply(l, Run(l, FRESH, run), a)
  {
    longer := run + [a];
    var c := Run(l, FRESH, run);
    assert [a][1..] == [];
    assert Legal(l, Apply(l, c, a), []);
    RunConcat(l, FRESH, run, [a]);
  }

  lemma {:induction false} RunConcat(l: Limits, c: Client, a: seq<Action>, b: seq<Action>)
    requires Legal(l, c, a) && Legal(l, Run(l, c, a), b)
    ensures Legal(l, c, a + b) && Run(l, c, a + b) == Run(l, Run(l, c, a), b)
    decreases a
  {
    hide Apply, Enabled;
    if a == [] {
      assert a + b == b;
    } else {
      RunConcat(l, Apply(l, c, a[0]), a[1..], b);
      assert (a + b)[1..] == a[1..] + b;
    }
  }

  /** Slots that only subscriptions hold always leave one free, so that an unsubscribe gets in. */
  ghost predicate UnsubscribeReachable(l: Limits) {
    forall run :: Legal(l, FRESH, run) && OnlySubscriptions(Run(l, FRESH, run)) ==> Run(l, FRESH, run).slots < l.inflight
  }

  /** That is the case exactly if the in-flight limit exceeds the subscription limit. */
  lemma HeadroomExactly(l: Limits)
    requires l.inflight >= 1
    ensures UnsubscribeReachable(l) <==> l.inflight > l.subscriptions
  {
    hide Legal, Run, Apply, Enabled, Tabled, Reached, Bounded;
    if l.inflight > l.subscriptions {
      forall run | Legal(l, FRESH, run) && OnlySubscriptions(Run(l, FRESH, run)) ensures Run(l, FRESH, run).slots < l.inflight {
        Reachable(l, run);
        SumsAgree(Run(l, FRESH, run).handlers, InSlot, IsAdmitted);
      }
    } else {
      var run := Fill(l, l.inflight);
      assert OnlySubscriptions(Run(l, FRESH, run));
    }
  }

  /** So a configuration that Validate accepts, with subscriptions enabled, keeps unsubscribe reachable;
      and of those it rejects for headroom none would. */
  lemma ValidatedHeadroom(c: Settings)
    requires c.subscribeOn && c.maxInflight >= 1
    ensures Validate(c).None? ==> UnsubscribeReachable(Limits(c.maxInflight, c.maxSubscriptions))
    ensures Validate(c) == Some(Headroom) ==> !UnsubscribeReachable(Limits(c.maxInflight, c.maxSubscriptions))
  {
    HeadroomExactly(Limits(c.maxInflight, c.maxSubscriptions));
  }

  /** In such a state an unsubscribe gets a slot. If the subscription is listed, its context is cancelled
      and its entry taken out; nothing else is cancelled or taken out. */
  lemma UnsubscribeGetsThrough(l: Limits, run: seq<Action>, key: string)
    requires l.inflight >= 1 && l.inflight > l.subscriptions
    requires Legal(l, FRESH, run) && OnlySubscriptions(Run(l, FRESH, run))
    ensures
      var c := Run(l, FRESH, run);
      var n := |c.handlers|;
      var arrived := Apply(l, c, Arrive(Unsubscribe(key)));
      && Enabled(l, arrived, TakeSlot(n))
      && var entered := Apply(l, arrived, TakeSlot(n));
         Enabled(l, entered, Cancel(n))
         && var done := Apply(l, entered, Cancel(n));
            && done.table == c.table - {key}
            && done.cancelled == (if key in c.table then c.cancelled + {c.table[key]} else c.cancelled)
            && (key in c.table ==> Subscribed(c, c.table[key], key))
            && (forall i :: 0 <= i < n && Subscribed(c, i, key) ==> i in done.cancelled)
  {
    hide Key, Legal, Run, Counted, Numbers;
    HeadroomExactly(l);
    Reachable(l, run);
    var c := Run(l, FRESH, run);
    assert key in c.table ==> Entry(c, key);
    forall i | 0 <= i < |c.handlers| && Subscribed(c, i, key)
      ensures i in c.cancelled || (key in c.table && c.table[key] == i)
    {
      assert ReachedAt(c, i);
    }
  }

  /** Handler i is the subscription with this identifier. */
  predicate Subscribed(c: Client, i: nat, key: string) {
    i < |c.handlers| && c.handlers[i].phase.Registered? && key == Key(c.handlers[i].phase.n)
  }
}
