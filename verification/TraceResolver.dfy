/** The code that one resolver goroutine runs: following a message until a transaction or a timeout,
    and extracting the messages to follow next. */
module TraceResolver {
  import opened Basics
  import opened TraceMachine

  /** An outgoing message of a transaction. A missing address, body or cell form makes it unfollowable. */
  datatype OutMsg = ExternalOut | Internal(dst: Option<nat>, body: Option<nat>, cellHash: Option<nat>)

  datatype OutMsgs = Absent | Unreadable | Listed(msgs: seq<OutMsg>)

  predicate Followable(m: OutMsg) { m.Internal? && m.dst.Some? && m.body.Some? && m.cellHash.Some? }

  /** The messages to follow, in order, one level deeper. */
  function Pending(msgs: seq<OutMsg>, depth: nat): (r: seq<Msg>)
    ensures |r| <= |msgs|
    ensures forall k :: 0 <= k < |r| ==> r[k].depth == depth
  {
    if msgs == [] then []
    else
      var before, last := Pending(msgs[..|msgs| - 1], depth), msgs[|msgs| - 1];
      if Followable(last) then before + [Msg(last.cellHash.value, depth)] else before
  }

  /** Pending loses no followable message and invents none. */
  lemma {:induction false} PendingExact(msgs: seq<OutMsg>, depth: nat, h: nat)
    ensures Msg(h, depth) in Pending(msgs, depth) <==> exists m :: m in msgs && Followable(m) && m.cellHash.value == h
  {
    if msgs != [] {
      PendingExact(msgs[..|msgs| - 1], depth, h);
      assert msgs == msgs[..|msgs| - 1] + [msgs[|msgs| - 1]];
    }
  }

  /** sent are the followable messages among msgs in order, those at positions at, at the given depth: the
      internal ones with an address, a body and a cell form. */
  ghost predicate Selects(msgs: seq<OutMsg>, depth: nat, sent: seq<Msg>, at: seq<nat>) {
    && |at| == |sent| && (forall k :: 0 <= k < |at| ==> at[k] < |msgs|)
    && (forall j, k :: 0 <= j < k < |at| ==> at[j] < at[k])
    && (forall k :: 0 <= k < |at| ==>
          && msgs[at[k]].Internal? && msgs[at[k]].dst.Some? && msgs[at[k]].body.Some? && msgs[at[k]].cellHash.Some?
          && sent[k] == Msg(msgs[at[k]].cellHash.value, depth))
    && (forall i :: 0 <= i < |msgs| && msgs[i].Internal? && msgs[i].dst.Some? && msgs[i].body.Some? && msgs[i].cellHash.Some? ==>
          i in at)
  }

  ghost predicate SelectsSome(msgs: seq<OutMsg>, depth: nat, sent: seq<Msg>) {
    exists at: seq<nat> :: Selects(msgs, depth, sent, at)
  }

  lemma SelectsMore(msgs: seq<OutMsg>, m: OutMsg, depth: nat, sent: seq<Msg>, at: seq<nat>)
    requires Selects(msgs, depth, sent, at) && Followable(m)
    ensures Selects(msgs + [m], depth, sent + [Msg(m.cellHash.value, depth)], at + [|msgs|])
  {
    var longer := at + [|msgs|];
    forall i | 0 <= i < |msgs + [m]| && Followable((msgs + [m])[i]) ensures i in longer {
      if i < |msgs| {
        assert i in at;
      } else {
        assert longer[|at|] == i;
      }
    }
  }

  lemma SelectsSame(msgs: seq<OutMsg>, m: OutMsg, depth: nat, sent: seq<Msg>, at: seq<nat>)
    requires Selects(msgs, depth, sent, at) && !Followable(m)
    ensures Selects(msgs + [m], depth, sent, at)
  {}

  lemma {:induction false} PendingSelects(msgs: seq<OutMsg>, depth: nat)
    ensures SelectsSome(msgs, depth, Pending(msgs, depth))
  {
    hide Selects;
    if msgs == [] {
      SelectsNone(depth);
    } else {
      var front, last := msgs[..|msgs| - 1], msgs[|msgs| - 1];
      PendingSelects(front, depth);
      var at: seq<nat> :| Selects(front, depth, Pending(front, depth), at);
      assert msgs == front + [last];
      if Followable(last) {
        SelectsMore(front, last, depth, Pending(front, depth), at);
      } else {
        SelectsSame(front, last, depth, Pending(front, depth), at);
      }
    }
  }

  lemma SelectsNone(depth: nat)
    ensures Selects([], depth, [], [])
  {}

  function Children(outs: OutMsgs, depth: nat): (r: seq<Msg>)
    ensures forall k :: 0 <= k < |r| ==> r[k].depth == depth
  {
    if outs.Listed? then Pending(outs.msgs, depth) else []
  }

  /** extractInternalOutMsgs */
  method ExtractInternalOutMsgs(outs: OutMsgs, depth: nat) returns (result: seq<Msg>)
    ensures result == Children(outs, depth)
    ensures outs.Listed? ==> SelectsSome(outs.msgs, depth, result)
    ensures !outs.Listed? ==> result == []
  {
    if outs.Listed? {
      PendingSelects(outs.msgs, depth);
    }
    result := [];
    if !outs.Listed? {
      return;
    }
    for i := 0 to |outs.msgs|
      invariant result == Pending(outs.msgs[..i], depth)
    {
      assert outs.msgs[..i + 1][..i] == outs.msgs[..i];
      var m := outs.msgs[i];
      if !m.Internal? {
        continue;
      }
      if m.dst.None? {
        continue;
      }
      if m.body.None? {
        continue;
      }
      if m.cellHash.None? {
        continue;
      }
      result := result + [Msg(m.cellHash.value, depth)];
    }
    assert outs.msgs[..|outs.msgs|] == outs.msgs;
  }

  /** The depth a subscription traces to: the request, or the default if it asks for none, at most the
      configured maximum. */
  method ClampDepth(requested: int, defaultDepth: int, limit: int) returns (depth: int)
    ensures depth <= limit
    ensures requested > 0 ==> depth == (if requested <= limit then requested else limit)
    ensures defaultDepth >= 1 && limit >= 1 ==> depth >= 1
    ensures requested <= 0 ==> depth == (if defaultDepth <= limit then defaultDepth else limit)
  {
    depth := requested;
    if depth <= 0 {
      depth := defaultDepth;
    }
    if depth > limit {
      depth := limit;
    }
  }

  // ---------------------------------------------------------------- following one message

  /** A search of the account's history for the message: nothing or an error, or the transaction. */
  datatype Scan = Missed | Hit(delivered: bool, outs: OutMsgs)

  /** The first look at the account. */
  datatype First = NoBlock | NoAccount | FirstRead(lt: nat, hashKnown: bool, scan: Scan)

  /** One turn of the poll loop. */
  datatype Poll = Expired | BlockFailed(expired: bool) | AccountFailed | Read(lt: nat, scan: Scan)

  predicate Ends(p: Poll) { p.Expired? || (p.BlockFailed? && p.expired) }

  /** The scan that finds the transaction. The account is searched only when its last LT has moved, and
      a failed search still moves the LT. */
  function FirstHit(lastLT: nat, polls: seq<Poll>): Scan
    decreases polls
  {
    if polls == [] || Ends(polls[0]) then Missed
    else if !polls[0].Read? || polls[0].lt == lastLT then FirstHit(lastLT, polls[1..])
    else if polls[0].scan.Hit? then polls[0].scan
    else FirstHit(polls[0].lt, polls[1..])
  }

  function Resolved(first: First, polls: seq<Poll>): Scan {
    if !first.FirstRead? then Missed
    else if first.lt > 0 && first.hashKnown && first.scan.Hit? then first.scan
    else FirstHit(first.lt, polls)
  }

  /** The step of the state machine that a resolved message amounts to. */
  function Outcome(i: nat, m: Msg, found: Scan): Action {
    if found.Missed? then TimeOut(i) else Match(i, Children(found.outs, m.depth + 1), found.delivered)
  }

  /** What the resolver does at its end: the events it attempts, whether it counts a timeout, and the
      messages it writes to the channel. */
  datatype Effects = Effects(attempts: nat, timedOut: bool, sent: seq<Msg>)

  /** resolveMessage with scanForMatch. An exhausted list of polls is the message's deadline. */
  method ResolveMessage(cfg: Config, m: Msg, first: First, polls: seq<Poll>) returns (e: Effects)
    ensures
      var a := Outcome(0, m, Resolved(first, polls));
      var wide := cfg.(fanout := if a.Match? then |a.children| else 0);
      var r := After(wide, Resolver(m, Polling, 0, false), a);
      e == Effects(r.attempts, r.timedOut, if r.stage.Sending? then r.stage.rest else [])
    ensures e.attempts == 1 && (e.timedOut <==> Resolved(first, polls).Missed?)
    ensures e.timedOut ==> e.sent == []
    ensures forall found: Scan :: Finds(first, polls, found) ==> !e.timedOut && SendsChildrenOf(cfg, m, found, e.sent)
  {
    FoundSends(cfg, m, first, polls);
    var timeout := Effects(1, true, []);
    if first.NoBlock? {
      return timeout;
    }
    if first.NoAccount? {
      return timeout;
    }
    var lastLT := first.lt;
    if lastLT > 0 && first.hashKnown {
      if first.scan.Hit? {
        e := ReportMatch(cfg, m, first.scan);
        return;
      }
    }
    for k := 0 to |polls|
      invariant Resolved(first, polls) == FirstHit(lastLT, polls[k..])
    {
      var poll := polls[k];
      assert polls[k..][1..] == polls[k + 1..];
      if poll.Expired? {
        return timeout;
      }
      if poll.BlockFailed? {
        if poll.expired {
          return timeout;
        }
        continue;
      }
      if poll.AccountFailed? {
        continue;
      }
      if poll.lt == lastLT {
        continue;
      }
      if poll.scan.Hit? {
        e := ReportMatch(cfg, m, poll.scan);
        return;
      }
      lastLT := poll.lt;
    }
    return timeout;
  }

  /** After a match the children go out exactly if the event was delivered and the trace may go deeper:
      the followable messages of the transaction, one level down. */
  ghost predicate SendsChildrenOf(cfg: Config, m: Msg, found: Scan, sent: seq<Msg>) {
    && found.Hit?
    && (if found.delivered && m.depth < cfg.maxDepth && found.outs.Listed?
        then SelectsSome(found.outs.msgs, m.depth + 1, sent)
        else sent == [])
  }

  /** found is what the search that ends the resolver reports: the first search, or the one of the first
      turn whose search hits. */
  ghost predicate Finds(first: First, polls: seq<Poll>, found: Scan) {
    && found.Hit? && first.FirstRead?
    && if first.lt > 0 && first.hashKnown && first.scan.Hit? then found == first.scan
       else exists k :: 0 <= k < |polls| && FirstSearchHit(first.lt, polls, k) && found == polls[k].scan
  }

  /** Turn k is the first that makes a search which hits. */
  ghost predicate FirstSearchHit(lastLT: nat, polls: seq<Poll>, k: nat)
    requires k < |polls|
  {
    HitAt(lastLT, polls, k) && forall j :: 0 <= j < k ==> !HitAt(lastLT, polls, j)
  }

  ghost predicate HitAt(lastLT: nat, polls: seq<Poll>, k: nat)
    requires k < |polls|
  {
    Searches(lastLT, polls, k) && polls[k].scan.Hit?
  }

  lemma FoundSends(cfg: Config, m: Msg, first: First, polls: seq<Poll>)
    ensures
      forall found: Scan :: Finds(first, polls, found) ==>
        && Resolved(first, polls) == found
        && SendsChildrenOf(cfg, m, found, if found.delivered && m.depth < cfg.maxDepth then Children(found.outs, m.depth + 1) else [])
  {
    forall found: Scan | Finds(first, polls, found)
      ensures
        && Resolved(first, polls) == found
        && SendsChildrenOf(cfg, m, found, if found.delivered && m.depth < cfg.maxDepth then Children(found.outs, m.depth + 1) else [])
    {
      ResolvedReports(first, polls, found);
      if found.outs.Listed? {
        PendingSelects(found.outs.msgs, m.depth + 1);
      }
    }
  }

  /** The end of scanForMatch: one trace_tx, and the children if it was delivered and may go deeper. */
  method ReportMatch(cfg: Config, m: Msg, found: Scan) returns (e: Effects)
    requires found.Hit?
    ensures
      e == Effects(1, false, if found.delivered && m.depth < cfg.maxDepth then Children(found.outs, m.depth + 1) else [])
  {
    hide Selects, SelectsSome, Pending, Children;
    if !found.delivered {
      return Effects(1, false, []);
    }
    var sent := [];
    if m.depth < cfg.maxDepth {
      var childMsgs := ExtractInternalOutMsgs(found.outs, m.depth + 1);
      for i := 0 to |childMsgs|
        invariant sent == childMsgs[..i]
      {
        sent := sent + [childMsgs[i]];
      }
      assert childMsgs[..|childMsgs|] == childMsgs;
    }
    e := Effects(1, false, sent);
  }

  // ---------------------------------------------------------------- when the message is found

  /** The last LT that was read before turn k. */
  function LTBefore(lastLT: nat, polls: seq<Poll>, k: nat): nat
    requires k <= |polls|
  {
    if k == 0 then lastLT
    else if polls[k - 1].Read? then polls[k - 1].lt
    else LTBefore(lastLT, polls, k - 1)
  }

  ghost predicate InTime(polls: seq<Poll>, k: nat)
    requires k < |polls|
  {
    forall j :: 0 <= j <= k ==> !polls[j].Expired? && !(polls[j].BlockFailed? && polls[j].expired)
  }

  /** Turn k searches the history: it comes before the deadline and reads an LT that has moved. */
  ghost predicate Searches(lastLT: nat, polls: seq<Poll>, k: nat)
    requires k < |polls|
  {
    InTime(polls, k) && polls[k].Read? && polls[k].lt != LTBefore(lastLT, polls, k)
  }

  ghost predicate SearchHits(lastLT: nat, polls: seq<Poll>) {
    exists k :: 0 <= k < |polls| && HitAt(lastLT, polls, k)
  }

  lemma {:induction false} LTBeforeRest(lastLT: nat, polls: seq<Poll>, k: nat)
    requires 1 <= k <= |polls|
    ensures LTBefore(lastLT, polls, k) == LTBefore(if polls[0].Read? then polls[0].lt else lastLT, polls[1..], k - 1)
    decreases k
  {
    if k > 1 {
      LTBeforeRest(lastLT, polls, k - 1);
      assert polls[1..][k - 2] == polls[k - 1];
    }
  }

  lemma SearchesRest(lastLT: nat, polls: seq<Poll>, k: nat)
    requires 1 <= k < |polls| && !Ends(polls[0])
    ensures
      Searches(lastLT, polls, k) <==> Searches(if polls[0].Read? then polls[0].lt else lastLT, polls[1..], k - 1)
  {
    LTBeforeRest(lastLT, polls, k);
    if InTime(polls, k) {
      forall j | 0 <= j <= k - 1 ensures !Ends(polls[1..][j]) {
        assert polls[1..][j] == polls[j + 1];
      }
    }
    if InTime(polls[1..], k - 1) {
      forall j | 0 <= j <= k ensures !Ends(polls[j]) {
        assert j > 0 ==> polls[1..][j - 1] == polls[j];
      }
    }
  }

  lemma HitAtRest(lastLT: nat, polls: seq<Poll>, k: nat)
    requires 1 <= k < |polls| && !Ends(polls[0])
    ensures HitAt(lastLT, polls, k) <==> HitAt(if polls[0].Read? then polls[0].lt else lastLT, polls[1..], k - 1)
  {
    SearchesRest(lastLT, polls, k);
    assert polls[1..][k - 1] == polls[k];
  }

  lemma SearchHitsRest(lastLT: nat, polls: seq<Poll>)
    requires polls != [] && !Ends(polls[0])
    ensures
      SearchHits(lastLT, polls) <==>
        || HitAt(lastLT, polls, 0)
        || SearchHits(if polls[0].Read? then polls[0].lt else lastLT, polls[1..])
  {
    var lt := if polls[0].Read? then polls[0].lt else lastLT;
    if k :| 0 <= k < |polls| && HitAt(lastLT, polls, k) {
      if k > 0 {
        HitAtRest(lastLT, polls, k);
      }
    }
    if k :| 0 <= k < |polls[1..]| && HitAt(lt, polls[1..], k) {
      HitAtRest(lastLT, polls, k + 1);
    }
  }

  lemma {:induction false} FirstHitExactly(lastLT: nat, polls: seq<Poll>)
    ensures FirstHit(lastLT, polls).Hit? <==> SearchHits(lastLT, polls)
    decreases polls
  {
    hide Searches, LTBefore;
    if polls == [] {
    } else if Ends(polls[0]) {
      NoSearchAfterEnd(lastLT, polls);
    } else {
      var lt := if polls[0].Read? then polls[0].lt else lastLT;
      SearchHitsRest(lastLT, polls);
      FirstHitExactly(lt, polls[1..]);
      FirstSearch(lastLT, polls);
      if polls[0].Read? && polls[0].lt != lastLT && polls[0].scan.Hit? {
        assert SearchHits(lastLT, polls);
      }
    }
  }

  /** And the scan it reports is the one of the first search that hits. */
  lemma {:induction false} FirstHitReports(lastLT: nat, polls: seq<Poll>, k: nat)
    requires k < |polls| && FirstSearchHit(lastLT, polls, k)
    ensures FirstHit(lastLT, polls) == polls[k].scan
    decreases polls
  {
    hide Searches, LTBefore;
    if Ends(polls[0]) {
      NoSearchAfterEnd(lastLT, polls);
      assert false;
    } else {
      FirstSearch(lastLT, polls);
      if k == 0 {
        assert Searches(lastLT, polls, 0);
      } else {
        assert !HitAt(lastLT, polls, 0);
        var lt, rest := if polls[0].Read? then polls[0].lt else lastLT, polls[1..];
        HitAtRest(lastLT, polls, k);
        forall j | 0 <= j < k - 1 ensures !HitAt(lt, rest, j) {
          HitAtRest(lastLT, polls, j + 1);
        }
        FirstHitReports(lt, rest, k - 1);
      }
    }
  }

  /** What is reported is the first search's transaction if that search hits, and otherwise that of the
      first turn whose search does. */
  lemma ResolvedReports(first: First, polls: seq<Poll>, found: Scan)
    requires Finds(first, polls, found)
    ensures Resolved(first, polls) == found
  {
    if !(first.lt > 0 && first.hashKnown && first.scan.Hit?) {
      var k :| 0 <= k < |polls| && FirstSearchHit(first.lt, polls, k) && found == polls[k].scan;
      FirstHitReports(first.lt, polls, k);
    }
  }

  lemma NoSearchAfterEnd(lastLT: nat, polls: seq<Poll>)
    requires polls != [] && Ends(polls[0])
    ensures !SearchHits(lastLT, polls)
  {}

  lemma FirstSearch(lastLT: nat, polls: seq<Poll>)
    requires polls != [] && !Ends(polls[0])
    ensures Searches(lastLT, polls, 0) <==> polls[0].Read? && polls[0].lt != lastLT
  {}

  /** The message is found if and only if a search hits: the first one, made when the account has a
      transaction, or one made in a turn whose LT has moved since the last read, before the deadline. A
      search that fails while the LT then stays is not made again. */
  lemma ResolvedExactly(first: First, polls: seq<Poll>)
    ensures
      Resolved(first, polls).Hit? <==>
        && first.FirstRead?
        && ((first.lt > 0 && first.hashKnown && first.scan.Hit?) || SearchHits(first.lt, polls))
  {
    if first.FirstRead? {
      FirstHitExactly(first.lt, polls);
    }
  }

  /** So a failed first search is final while the account is quiet, whatever later searches would find. */
  lemma FailedFirstSearchIsFinal(first: First, polls: seq<Poll>)
    requires first.FirstRead? && first.scan.Missed?
    requires forall k :: 0 <= k < |polls| && polls[k].Read? ==> polls[k].lt == first.lt
    ensures Resolved(first, polls).Missed?
  {
    ResolvedExactly(first, polls);
    forall k | 0 <= k < |polls| ensures !Searches(first.lt, polls, k) {
      QuietLT(first.lt, polls, k);
    }
  }

  /** The same for a search that fails in a later turn. */
  lemma FailedSearchIsFinal(first: First, polls: seq<Poll>, m: nat)
    requires first.FirstRead? && first.scan.Missed?
    requires m < |polls| && polls[m].Read? && polls[m].scan.Missed?
    requires forall k :: 0 <= k < m && polls[k].Read? ==> polls[k].scan.Missed?
    requires forall k :: m < k < |polls| && polls[k].Read? ==> polls[k].lt == polls[m].lt
    ensures Resolved(first, polls).Missed?
  {
    ResolvedExactly(first, polls);
    forall k | m < k < |polls| ensures !Searches(first.lt, polls, k) {
      QuietSince(first.lt, polls, m, k);
    }
  }

  lemma {:induction false} QuietSince(lastLT: nat, polls: seq<Poll>, m: nat, k: nat)
    requires m < k <= |polls| && polls[m].Read?
    requires forall j :: m < j < k && polls[j].Read? ==> polls[j].lt == polls[m].lt
    ensures LTBefore(lastLT, polls, k) == polls[m].lt
    decreases k
  {
    if k - 1 > m {
      QuietSince(lastLT, polls, m, k - 1);
    }
  }

  lemma {:induction false} QuietLT(lt: nat, polls: seq<Poll>, k: nat)
    requires k <= |polls| && forall j :: 0 <= j < k && polls[j].Read? ==> polls[j].lt == lt
    ensures LTBefore(lt, polls, k) == lt
  {
    if k > 0 {
      QuietLT(lt, polls, k - 1);
    }
  }

  /** Searches do not fail once the account, as it was read, has processed the message, at LT processed. */
  ghost predicate Reliable(first: First, polls: seq<Poll>, processed: nat) {
    && (first.FirstRead? && first.lt >= processed ==> first.hashKnown && first.scan.Hit?)
    && (forall k :: 0 <= k < |polls| && polls[k].Read? && polls[k].lt >= processed ==> polls[k].scan.Hit?)
  }

  /** Before the deadline the account is read after it has processed the message. */
  ghost predicate SeenProcessed(first: First, polls: seq<Poll>, processed: nat) {
    && first.FirstRead?
    && (first.lt >= processed || exists k :: 0 <= k < |polls| && InTime(polls, k) && polls[k].Read? && polls[k].lt >= processed)
  }

  /** Searches do not hit before the account, as it was read, has processed the message. */
  ghost predicate Punctual(first: First, polls: seq<Poll>, processed: nat) {
    && (first.FirstRead? && first.scan.Hit? ==> first.lt >= processed)
    && (forall k :: 0 <= k < |polls| && polls[k].Read? && polls[k].scan.Hit? ==> polls[k].lt >= processed)
  }

  /** With reliable searches the message is found if the account is read, before the deadline, after it
      processed the message; and only then, unless a search runs ahead of the read before it. */
  lemma FoundOnceProcessed(first: First, polls: seq<Poll>, processed: nat)
    requires processed > 0 && Reliable(first, polls, processed)
    ensures SeenProcessed(first, polls, processed) ==> Resolved(first, polls).Hit?
    ensures Punctual(first, polls, processed) ==> (Resolved(first, polls).Hit? <==> SeenProcessed(first, polls, processed))
  {
    ResolvedExactly(first, polls);
    if first.FirstRead? && first.lt < processed {
      if k :| 0 <= k < |polls| && InTime(polls, k) && polls[k].Read? && polls[k].lt >= processed {
        var m := EarliestProcessed(first.lt, polls, processed, k);
        assert HitAt(first.lt, polls, m);
      }
      if k :| 0 <= k < |polls| && HitAt(first.lt, polls, k) {
        assert InTime(polls, k) && polls[k].Read?;
      }
    }
  }

  /** The first turn that reads such an LT finds it moved. */
  lemma {:induction false} EarliestProcessed(lastLT: nat, polls: seq<Poll>, processed: nat, k: nat) returns (m: nat)
    requires lastLT < processed && k < |polls| && InTime(polls, k) && polls[k].Read? && polls[k].lt >= processed
    ensures m <= k && Searches(lastLT, polls, m) && polls[m].lt >= processed
    decreases k
  {
    if j :| 0 <= j < k && polls[j].Read? && polls[j].lt >= processed {
      m := EarliestProcessed(lastLT, polls, processed, j);
    } else {
      LowLT(lastLT, polls, processed, k);
      m := k;
    }
  }

  lemma {:induction false} LowLT(lastLT: nat, polls: seq<Poll>, processed: nat, k: nat)
    requires lastLT < processed && k <= |polls|
    requires forall j :: 0 <= j < k && polls[j].Read? ==> polls[j].lt < processed
    ensures LTBefore(lastLT, polls, k) < processed
  {
    if k > 0 {
      LowLT(lastLT, polls, processed, k - 1);
    }
  }
}
