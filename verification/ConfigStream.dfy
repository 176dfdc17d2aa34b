/** The stream of configuration changes: a cache of the watched parameters and one event per change. */
module ConfigStream {
  import opened Basics

  /** The serialized cell of a parameter; empty if there is none. */
  type Value = seq<bv8>

  /** A configuration as read at one block. */
  type Values = map<int, Value>

  function Of(vs: Values, id: int): Value { if id in vs then vs[id] else [] }

  lemma OfIsTheValue(vs: Values, id: int)
    ensures id in vs ==> Of(vs, id) == vs[id]
    ensures id !in vs ==> Of(vs, id) == []
  {}

  datatype Event = Event(id: int, seqno: nat, before: Value, after: Value)

  /** One turn of the loop: an error, a new block whose configuration cannot be read, or one that can. */
  datatype Round = BlockError | ConfigError(seqno: nat) | Read(seqno: nat, values: Values)

  /** The values a subscriber computes from the first ones and the events. */
  function Replay(first: Values, events: seq<Event>): Values {
    if events == [] then first
    else
      var last := events[|events| - 1];
      Replay(first, events[..|events| - 1])[last.id := last.after]
  }

  /** Each event starts from where the events before it lead, and changes that. */
  ghost predicate Telescopes(first: Values, events: seq<Event>) {
    forall k :: 0 <= k < |events| ==> Continues(first, events, k)
  }

  ghost predicate Continues(first: Values, events: seq<Event>, k: nat)
    requires k < |events|
  {
    events[k].before == Of(Replay(first, events[..k]), events[k].id) && events[k].before != events[k].after
  }

  /** Every event is a watched parameter's value at a block that was read. */
  ghost predicate Observed(params: seq<int>, rounds: seq<Round>, e: Event) {
    e.id in params && exists k :: 0 <= k < |rounds| && ReadsAs(rounds[k], e)
  }

  predicate ReadsAs(round: Round, e: Event) { round.Read? && round.seqno == e.seqno && Of(round.values, e.id) == e.after }

  lemma {:induction false} TelescopesSnoc(first: Values, events: seq<Event>, e: Event)
    requires Telescopes(first, events) && e.before == Of(Replay(first, events), e.id) && e.before != e.after
    ensures Telescopes(first, events + [e])
    ensures Replay(first, events + [e]) == Replay(first, events)[e.id := e.after]
  {
    assert (events + [e])[..|events|] == events;
    forall k | 0 <= k < |events + [e]| ensures Continues(first, events + [e], k) {
      assert (events + [e])[..k] == events[..k];
      if k < |events| {
        assert Continues(first, events, k);
      }
    }
  }

  /** The last configuration that was read, the first one if none was. */
  function LastRead(first: Values, rounds: seq<Round>): (vs: Values)
    ensures (forall k :: 0 <= k < |rounds| ==> !rounds[k].Read?) ==> vs == first
    ensures
      forall k :: 0 <= k < |rounds| && rounds[k].Read? && (forall j :: k < j < |rounds| ==> !rounds[j].Read?) ==>
        vs == rounds[k].values
  {
    if rounds == [] then first
    else if rounds[|rounds| - 1].Read? then rounds[|rounds| - 1].values
    else LastRead(first, rounds[..|rounds| - 1])
  }

  ghost predicate Agree(params: seq<int>, a: Values, b: Values) { forall id :: id in params ==> Of(a, id) == Of(b, id) }

  /** The watched part of a configuration. */
  function Watched(params: seq<int>, vs: Values): Values { map id | id in vs && id in params :: vs[id] }

  /** The cache of the watched parameters as filled before the loop. */
  method FillCache(params: seq<int>, first: Values) returns (cache: Values)
    ensures cache == Watched(params, first)
  {
    cache := map[];
    for i := 0 to |params|
      invariant cache == Watched(params[..i], first)
    {
      assert params[..i + 1] == params[..i] + [params[i]];
      if params[i] in first {
        cache := cache[params[i] := first[params[i]]];
      }
    }
    assert params[..|params|] == params;
  }

  /** The events of one block and the cache after them. */
  function Compare(params: seq<int>, cache: Values, seqno: nat, values: Values): (seq<Event>, Values) {
    if params == [] then ([], cache)
    else
      var (events, now) := Compare(params[..|params| - 1], cache, seqno, values);
      var id := params[|params| - 1];
      if Of(now, id) == Of(values, id) then (events, now)
      else (events + [Event(id, seqno, Of(now, id), Of(values, id))], now[id := Of(values, id)])
  }

  /** The events of all turns and the cache after them. */
  function Changes(params: seq<int>, cache: Values, rounds: seq<Round>): (seq<Event>, Values) {
    if rounds == [] then ([], cache)
    else
      var (events, now) := Changes(params, cache, rounds[..|rounds| - 1]);
      var last := rounds[|rounds| - 1];
      if !last.Read? then (events, now)
      else
        var (more, later) := Compare(params, now, last.seqno, last.values);
        (events + more, later)
  }

  lemma {:induction false} CompareGrows(params: seq<int>, k: nat, cache: Values, seqno: nat, values: Values)
    requires k <= |params|
    ensures Compare(params[..k], cache, seqno, values).0 <= Compare(params, cache, seqno, values).0
  {
    if k < |params| {
      assert params[..|params| - 1][..k] == params[..k];
      CompareGrows(params[..|params| - 1], k, cache, seqno, values);
    } else {
      assert params[..k] == params;
    }
  }

  lemma {:induction false} ChangesGrow(params: seq<int>, cache: Values, rounds: seq<Round>, k: nat)
    requires k <= |rounds|
    ensures Changes(params, cache, rounds[..k]).0 <= Changes(params, cache, rounds).0
  {
    hide Compare;
    if k < |rounds| {
      assert rounds[..|rounds| - 1][..k] == rounds[..k];
      ChangesGrow(params, cache, rounds[..|rounds| - 1], k);
    } else {
      assert rounds[..k] == rounds;
    }
  }

  /** The loop over the watched parameters at one block. A parameter that is listed twice is compared with
      the cache that its first occurrence updated. */
  method CompareAll(params: seq<int>, cache0: Values, before: seq<Event>, seqno: nat, values: Values, sends: nat)
    returns (events: seq<Event>, cache: Values, delivered: bool)
    requires |before| <= sends
    ensures
      var (more, later) := Compare(params, cache0, seqno, values);
      && events == Sent(before + more, sends)
      && (delivered <==> |before + more| <= sends)
      && (delivered ==> cache == later)
  {
    hide Of;
    events, cache := before, cache0;
    for i := 0 to |params|
      invariant |events| <= sends
      invariant Compare(params[..i], cache0, seqno, values).1 == cache
      invariant events == before + Compare(params[..i], cache0, seqno, values).0
    {
      assert params[..i + 1][..i] == params[..i];
      var id := params[i];
      var newBOC := Of(values, id);
      var oldBOC := Of(cache, id);
      if oldBOC == newBOC {
        continue;
      }
      if |events| == sends {
        CompareGrows(params, i + 1, cache0, seqno, values);
        SentOfPrefix(before + Compare(params[..i + 1], cache0, seqno, values).0,
                     before + Compare(params, cache0, seqno, values).0, sends);
        delivered := false;
        return;
      }
      events := events + [Event(id, seqno, oldBOC, newBOC)];
      cache := cache[id := newBOC];
    }
    assert params[..|params|] == params;
    delivered := true;
  }

  /** The loop of handleSubscribeConfigChanges, from the first configuration that was read. An exhausted
      list of rounds is a cancelled context; sends events succeed before the connection drops. */
  method SubscribeConfigChanges(params: seq<int>, first: Values, rounds: seq<Round>, sends: nat) returns (events: seq<Event>)
    ensures events == Sent(Changes(params, Watched(params, first), rounds).0, sends)
  {
    hide Compare;
    var cache0 := FillCache(params, first);
    events := [];
    var cache := cache0;
    for k := 0 to |rounds|
      invariant |events| <= sends
      invariant (events, cache) == Changes(params, cache0, rounds[..k])
    {
      assert rounds[..k + 1][..k] == rounds[..k];
      if rounds[k].BlockError? {
        continue;
      }
      if rounds[k].ConfigError? {
        continue;
      }
      ghost var sofar := events;
      var delivered;
      events, cache, delivered := CompareAll(params, cache, events, rounds[k].seqno, rounds[k].values, sends);
      if !delivered {
        ChangesGrow(params, cache0, rounds, k + 1);
        SentOfPrefix(Changes(params, cache0, rounds[..k + 1]).0, Changes(params, cache0, rounds).0, sends);
        return;
      }
    }
    assert rounds[..|rounds|] == rounds;
  }

  // ---------------------------------------------------------------- what the stream says

  /** One block: the events go on from where the earlier ones led, to the block's values. */
  lemma {:induction false} CompareTelescopes(all: seq<int>, params: seq<int>, first: Values, before: seq<Event>, cache: Values, seqno: nat, values: Values)
    requires forall i :: 0 <= i < |params| ==> params[i] in all
    requires Telescopes(first, before) && Agree(all, cache, Replay(first, before))
    ensures
      var (more, later) := Compare(params, cache, seqno, values);
      && Telescopes(first, before + more)
      && Agree(all, later, Replay(first, before + more))
      && Agree(params, later, values)
      && forall k :: 0 <= k < |more| ==> more[k].id in params && ReadsAs(Read(seqno, values), more[k])
  {
    hide Telescopes, Replay, Of;
    if params == [] {
      assert before + [] == before;
    } else {
      var front, id := params[..|params| - 1], params[|params| - 1];
      CompareTelescopes(all, front, first, before, cache, seqno, values);
      var (more, now) := Compare(front, cache, seqno, values);
      assert params == front + [id];
      if Of(now, id) != Of(values, id) {
        var e := Event(id, seqno, Of(now, id), Of(values, id));
        TelescopesSnoc(first, before + more, e);
        assert before + (more + [e]) == (before + more) + [e];
        UpdateAt(now, id, Of(values, id));
        UpdateAt(Replay(first, before + more), id, Of(values, id));
      }
    }
  }

  lemma UpdateAt(vs: Values, id: int, v: Value)
    ensures Of(vs[id := v], id) == v && forall other :: other != id ==> Of(vs[id := v], other) == Of(vs, other)
  {}

  /** The events telescope, each carries a watched parameter's value as read at its block, and replaying
      them over the first configuration gives the last one that was read, whatever blocks were skipped.
      Since the events of the first k turns are a prefix, this holds after every turn. */
  lemma {:induction false} StreamTelescopes(params: seq<int>, first: Values, rounds: seq<Round>)
    ensures
      var (events, cache) := Changes(params, Watched(params, first), rounds);
      && Telescopes(first, events)
      && Agree(params, cache, Replay(first, events))
      && Agree(params, cache, LastRead(first, rounds))
      && forall k :: 0 <= k < |events| ==> Observed(params, rounds, events[k])
  {
    hide Telescopes, Replay, Compare;
    if rounds == [] {
      NothingYet(first);
    } else {
      var front, last := rounds[..|rounds| - 1], rounds[|rounds| - 1];
      StreamTelescopes(params, first, front);
      var (events, now) := Changes(params, Watched(params, first), front);
      forall k | 0 <= k < |events| ensures Observed(params, rounds, events[k]) {
        ObservedLater(params, front, last, events[k]);
      }
      assert rounds == front + [last];
      if last.Read? {
        CompareTelescopes(params, params, first, events, now, last.seqno, last.values);
        var more := Compare(params, now, last.seqno, last.values).0;
        forall k | 0 <= k < |more| ensures Observed(params, rounds, more[k]) {
          assert ReadsAs(rounds[|rounds| - 1], more[k]);
        }
      }
    }
  }

  lemma NothingYet(first: Values)
    ensures Telescopes(first, []) && Replay(first, []) == first
  {}

  lemma ObservedLater(params: seq<int>, rounds: seq<Round>, last: Round, e: Event)
    requires Observed(params, rounds, e)
    ensures Observed(params, rounds + [last], e)
  {
    var k :| 0 <= k < |rounds| && ReadsAs(rounds[k], e);
    assert ReadsAs((rounds + [last])[k], e);
  }

  /** So it is for the events that SubscribeConfigChanges really sends: cut off anywhere they still
      telescope and carry values as read, and if all were sent they replay to the last configuration. */
  lemma SentTelescopes(params: seq<int>, first: Values, rounds: seq<Round>, sends: nat)
    ensures
      var all := Changes(params, Watched(params, first), rounds).0;
      var events := Sent(all, sends);
      && Telescopes(first, events)
      && (forall k :: 0 <= k < |events| ==> Observed(params, rounds, events[k]))
      && (|all| <= sends ==> Agree(params, Replay(first, events), LastRead(first, rounds)))
  {
    hide Changes, Replay, LastRead, Observed;
    StreamTelescopes(params, first, rounds);
    var (all, cache) := Changes(params, Watched(params, first), rounds);
    var events := Sent(all, sends);
    forall k | 0 <= k < |events| ensures Continues(first, events, k) {
      assert Continues(first, all, k);
      assert events[..k] == all[..k];
    }
  }

  /** The value a parameter has after the events: its last event's new value. */
  lemma {:induction false} ReplayIsLastEvent(first: Values, events: seq<Event>, k: nat)
    requires k < |events|
    requires forall j :: k < j < |events| ==> events[j].id != events[k].id
    ensures Of(Replay(first, events), events[k].id) == events[k].after
  {
    var n := |events| - 1;
    if k < n {
      ReplayIsLastEvent(first, events[..n], k);
    }
  }

  /** Per parameter the events chain: each starts from the new value of the one before. */
  lemma EventsChain(first: Values, events: seq<Event>, j: nat, k: nat)
    requires Telescopes(first, events) && j < k < |events| && events[j].id == events[k].id
    requires forall i :: j < i < k ==> events[i].id != events[k].id
    ensures events[k].before == events[j].after != events[k].after
  {
    assert Continues(first, events, k);
    ReplayIsLastEvent(first, events[..k], j);
  }

  /** A parameter changes at most once per block, even if it is listed twice: two events of one parameter
      with the same new value have another one between them. */
  lemma OneChangePerBlock(first: Values, events: seq<Event>, j: nat, k: nat)
    requires Telescopes(first, events) && j < k < |events|
    requires events[j].id == events[k].id && events[j].after == events[k].after
    ensures exists i :: j < i < k && events[i].id == events[k].id && events[i].after != events[k].after
    decreases k - j
  {
    if forall i :: j < i < k ==> events[i].id != events[k].id {
      EventsChain(first, events, j, k);
    } else {
      var i :| j < i < k && events[i].id == events[k].id;
      if events[i].after == events[k].after {
        OneChangePerBlock(first, events, i, k);
      }
    }
  }
}
