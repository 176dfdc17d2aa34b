/** Following the masterchain block by block, and reading a block's transactions page by page. */
module BlockFollowing {
  import opened Basics

  /** A transaction in a block, identified by account and LT. */
  datatype TxId = TxId(account: nat, lt: nat)

  /** A block: its name, and its transactions in the server's order. */
  datatype Block = Block(id: nat, txs: seq<TxId>)

  /** A masterchain block with the shard blocks it names. */
  datatype McBlock = McBlock(own: Block, shards: seq<Block>)

  ghost predicate Distinct(txs: seq<TxId>) { forall i, j :: 0 <= i < j < |txs| ==> txs[i] != txs[j] }

  // ---------------------------------------------------------------- the transactions of one block

  const PAGE: nat := 256

  /** One answer of GetBlockTransactionsV2: an error, the next so many transactions after the cursor with
      a truthful flag, or anything else. */
  datatype Reply = Failed | Next(size: nat) | Arbitrary(page: seq<TxId>, incomplete: bool)

  /** The position after the cursor. */
  function After(txs: seq<TxId>, cursor: Option<TxId>): (p: nat)
    ensures p <= |txs|
  {
    if cursor.None? then 0 else PositionOf(txs, cursor.value)
  }

  /** Just past the transaction; at the end if the block does not have it. */
  function PositionOf(txs: seq<TxId>, id: TxId): (p: nat)
    ensures p <= |txs|
  {
    if txs == [] then 0 else if txs[0] == id then 1 else 1 + PositionOf(txs[1..], id)
  }

  lemma {:induction false} PositionOfAt(txs: seq<TxId>, k: nat)
    requires 0 < k <= |txs| && Distinct(txs)
    ensures PositionOf(txs, txs[k - 1]) == k
  {
    if k > 1 {
      assert txs[1..][k - 2] == txs[k - 1];
      PositionOfAt(txs[1..], k - 1);
    }
  }

  /** The page and the incomplete flag that a reply to this cursor carries. */
  function Served(txs: seq<TxId>, cursor: Option<TxId>, reply: Reply): (seq<TxId>, bool)
    requires !reply.Failed?
  {
    match reply
    case Next(size) =>
      var p := After(txs, cursor);
      var k := if size == 0 then 1 else if size < PAGE then size else PAGE;
      if p + k < |txs| then (txs[p..p + k], true) else (txs[p..], false)
    case Arbitrary(page, incomplete) => (page, incomplete)
  }

  datatype Failure = RequestFailed | EmptyPage | StuckCursor

  /** collectBlockTransactions. An exhausted list of replies is a cancelled context. */
  method CollectBlockTransactions(block: Block, replies: seq<Reply>) returns (r: Result<seq<TxId>, Failure>)
    ensures r == Collect(block.txs, None, [], replies)
  {
    var all: seq<TxId> := [];
    var after: Option<TxId> := None;
    assert replies[0..] == replies;
    for k := 0 to |replies|
      invariant Collect(block.txs, None, [], replies) == Collect(block.txs, after, all, replies[k..])
    {
      assert replies[k..][1..] == replies[k + 1..];
      if replies[k].Failed? {
        return Err(RequestFailed);
      }
      var (page, incomplete) := Served(block.txs, after, replies[k]);
      all := all + page;
      if !incomplete {
        return Ok(all);
      }
      if |page| == 0 {
        return Err(EmptyPage);
      }
      var next := page[|page| - 1];
      if after.Some? && after.value == next {
        return Err(StuckCursor);
      }
      after := Some(next);
    }
    r := Err(RequestFailed);
  }

  function Collect(txs: seq<TxId>, after: Option<TxId>, all: seq<TxId>, replies: seq<Reply>): Result<seq<TxId>, Failure>
    decreases replies
  {
    if replies == [] || replies[0].Failed? then Err(RequestFailed)
    else
      var (page, incomplete) := Served(txs, after, replies[0]);
      if !incomplete then Ok(all + page)
      else if page == [] then Err(EmptyPage)
      else
        var next := page[|page| - 1];
        if after == Some(next) then Err(StuckCursor) else Collect(txs, Some(next), all + page, replies[1..])
  }

  /** A complete page ends the collection; an incomplete one that is empty, or that ends at the cursor, is
      an error; any other is kept and its last transaction becomes the cursor. */
  lemma CollectOutcome(txs: seq<TxId>, after: Option<TxId>, all: seq<TxId>, replies: seq<Reply>)
    requires replies != [] && !replies[0].Failed?
    ensures
      var (page, incomplete) := Served(txs, after, replies[0]);
      var r := Collect(txs, after, all, replies);
      && (!incomplete ==> r == Ok(all + page))
      && (incomplete && page == [] ==> r == Err(EmptyPage))
      && (incomplete && page != [] && after == Some(page[|page| - 1]) ==> r == Err(StuckCursor))
      && (incomplete && page != [] && after != Some(page[|page| - 1]) ==>
            r == Collect(txs, Some(page[|page| - 1]), all + page, replies[1..]))
  {}

  ghost predicate Honest(replies: seq<Reply>) { forall k :: 0 <= k < |replies| ==> !replies[k].Arbitrary? }

  /** p transactions have been read, and the cursor is the last of them. */
  ghost predicate AtCursor(txs: seq<TxId>, p: nat, after: Option<TxId>) {
    p <= |txs| && if p == 0 then after.None? else after == Some(txs[p - 1])
  }

  lemma HonestPage(txs: seq<TxId>, p: nat, after: Option<TxId>, reply: Reply)
    requires Distinct(txs) && AtCursor(txs, p, after) && reply.Next?
    ensures
      var (page, incomplete) := Served(txs, after, reply);
      && p + |page| <= |txs| && page == txs[p..p + |page|]
      && (if incomplete then page != [] && after != Some(page[|page| - 1]) else p + |page| == |txs|)
  {
    if p > 0 {
      PositionOfAt(txs, p);
    }
    var (page, incomplete) := Served(txs, after, reply);
    if incomplete && p > 0 {
      assert txs[p - 1] != txs[p + |page| - 1];
    }
  }

  /** With p transactions read from an honest server, what is collected next is the rest: all of it, or a
      failed request. The remainder shrinks with every page, so |txs| - p + 1 answers are enough. */
  lemma {:induction false} CollectsTheRest(txs: seq<TxId>, p: nat, after: Option<TxId>, replies: seq<Reply>)
    requires Distinct(txs) && Honest(replies) && AtCursor(txs, p, after)
    ensures
      var r := Collect(txs, after, txs[..p], replies);
      && (r == Ok(txs) || r == Err(RequestFailed))
      && ((forall k :: 0 <= k < |replies| ==> !replies[k].Failed?) && |replies| > |txs| - p ==> r == Ok(txs))
    decreases replies
  {
    hide Distinct, Served;
    if replies != [] && !replies[0].Failed? {
      var (page, incomplete) := Served(txs, after, replies[0]);
      HonestPage(txs, p, after, replies[0]);
      assert txs[..p] + page == txs[..p + |page|];
      if incomplete {
        assert page[|page| - 1] == txs[p + |page| - 1];
        CollectsTheRest(txs, p + |page|, Some(page[|page| - 1]), replies[1..]);
      } else {
        assert txs[..p + |page|] == txs;
      }
    }
  }

  /** Pagination is exact: against an honest server the result is the whole list in order, or the error
      of a failed request; the guards against empty pages and a stuck cursor never fire. */
  lemma PaginationIsExact(block: Block, replies: seq<Reply>)
    requires Distinct(block.txs) && Honest(replies)
    ensures
      var r := Collect(block.txs, None, [], replies);
      && (r == Ok(block.txs) || r == Err(RequestFailed))
      && ((forall k :: 0 <= k < |replies| ==> !replies[k].Failed?) && |replies| > |block.txs| ==> r == Ok(block.txs))
  {
    assert block.txs[..0] == [];
    CollectsTheRest(block.txs, 0, None, replies);
  }

  // ---------------------------------------------------------------- the next masterchain block

  /** The masterchain, by sequence number. */
  type Master = nat -> McBlock

  /** The answers to one nextMasterchainBlock: how far the tip is ahead of the block waited for, or an
      error; then whether the lookup succeeds. */
  datatype NextReply = NextReply(ahead: Option<nat>, found: bool)

  /** nextMasterchainBlock: the successor of the last block, however far the tip has moved. */
  method NextMasterchainBlock(last: nat, reply: NextReply) returns (seqno: Option<nat>)
    ensures seqno == if reply.ahead.Some? && reply.found then Some(last + 1) else None
  {
    if reply.ahead.None? {
      return None;
    }
    seqno := if reply.found then Some(last + 1) else None;
  }

  /** One turn of a subscription loop: the next block, whether its shards could be read, and the replies
      to the page requests of each block. */
  datatype Round = Round(next: NextReply, shardsRead: bool, replies: seq<seq<Reply>>)

  // ---------------------------------------------------------------- subscribe.blocks

  /** A block event: the sequence number and the shard blocks. */
  datatype BlockEvent = BlockEvent(seqno: nat, shards: seq<nat>)

  function Ids(blocks: seq<Block>): (ids: seq<nat>)
    ensures |ids| == |blocks| && forall i :: 0 <= i < |blocks| ==> ids[i] == blocks[i].id
  {
    seq(|blocks|, i requires 0 <= i < |blocks| => blocks[i].id)
  }

  /** The turns in which everything that the loop reads could be read. */
  function Readable(rounds: seq<Round>): (n: nat)
    ensures n <= |rounds|
  {
    if rounds == [] then 0
    else
      var last := rounds[|rounds| - 1];
      Readable(rounds[..|rounds| - 1]) + if last.next.ahead.Some? && last.next.found && last.shardsRead then 1 else 0
  }

  /** How many those are: the turns with a tip, a block and its shards. */
  lemma {:induction false} ReadableCounts(rounds: seq<Round>)
    ensures
      Readable(rounds)
      == |set k | 0 <= k < |rounds| && rounds[k].next.ahead.Some? && rounds[k].next.found && rounds[k].shardsRead|
  {
    if rounds != [] {
      var n := |rounds| - 1;
      var front := rounds[..n];
      ReadableCounts(front);
      var before := set k | 0 <= k < |front| && front[k].next.ahead.Some? && front[k].next.found && front[k].shardsRead;
      var all := set k | 0 <= k < |rounds| && rounds[k].next.ahead.Some? && rounds[k].next.found && rounds[k].shardsRead;
      if rounds[n].next.ahead.Some? && rounds[n].next.found && rounds[n].shardsRead {
        assert all == before + {n};
      } else {
        assert all == before;
      }
    }
  }

  /** The loop of handleSubscribeBlocks. An exhausted list of rounds is a cancelled context; sends events
      succeed before the connection drops. The events are start+1, start+2, ... without a gap, each with
      the shards of its own block: as many as there were good turns, or as could be sent. */
  method SubscribeBlocks(m: Master, start: nat, rounds: seq<Round>, sends: nat) returns (events: seq<BlockEvent>)
    ensures |events| == if Readable(rounds) <= sends then Readable(rounds) else sends
    ensures forall i :: 0 <= i < |events| ==> events[i] == BlockEvent(start + 1 + i, Ids(m(start + 1 + i).shards))
  {
    events := [];
    var lastSeqno := start;
    for k := 0 to |rounds|
      invariant lastSeqno == start + |events| && |events| == Readable(rounds[..k]) <= sends
      invariant forall i :: 0 <= i < |events| ==> events[i] == BlockEvent(start + 1 + i, Ids(m(start + 1 + i).shards))
    {
      assert rounds[..k + 1][..k] == rounds[..k];
      var block := NextMasterchainBlock(lastSeqno, rounds[k].next);
      if block.None? {
        continue;
      }
      if !rounds[k].shardsRead {
        continue;
      }
      var shards, shardResults := m(block.value).shards, [];
      for i := 0 to |shards|
        invariant shardResults == Ids(shards)[..i]
      {
        shardResults := shardResults + [shards[i].id];
      }
      if |events| == sends {
        ReadableGrows(rounds, k + 1);
        return;
      }
      events := events + [BlockEvent(block.value, shardResults)];
      lastSeqno := block.value;
    }
    assert rounds[..|rounds|] == rounds;
  }

  lemma {:induction false} ReadableGrows(rounds: seq<Round>, k: nat)
    requires k <= |rounds|
    ensures Readable(rounds[..k]) <= Readable(rounds)
  {
    if k < |rounds| {
      assert rounds[..|rounds| - 1][..k] == rounds[..k];
      ReadableGrows(rounds[..|rounds| - 1], k);
    } else {
      assert rounds[..k] == rounds;
    }
  }

  // ---------------------------------------------------------------- subscribe.newTransactions

  datatype TxEvent = TxEvent(tx: TxId, block: nat)

  /** The events of a block's transactions. */
  function EventsOf(id: nat, txs: seq<TxId>): (events: seq<TxEvent>)
    ensures |events| == |txs| && forall i :: 0 <= i < |txs| ==> events[i] == TxEvent(txs[i], id)
  {
    seq(|txs|, i requires 0 <= i < |txs| => TxEvent(txs[i], id))
  }

  /** The events of a block and its shard tops. */
  function EventsOfAll(blocks: seq<Block>): seq<TxEvent> {
    if blocks == [] then []
    else EventsOfAll(blocks[..|blocks| - 1]) + EventsOf(blocks[|blocks| - 1].id, blocks[|blocks| - 1].txs)
  }

  function RepliesFor(replies: seq<seq<Reply>>, i: nat): seq<Reply> { if i < |replies| then replies[i] else [] }

  /** Every part of a block could be read to its end. */
  predicate AllRead(blocks: seq<Block>, replies: seq<seq<Reply>>) {
    forall i :: 0 <= i < |blocks| ==> Collect(blocks[i].txs, None, [], RepliesFor(replies, i)).Ok?
  }

  /** The blocks with the transactions that were read for them. */
  function AsRead(blocks: seq<Block>, replies: seq<seq<Reply>>): (r: seq<Block>)
    requires AllRead(blocks, replies)
    ensures |r| == |blocks|
  {
    seq(|blocks|, i requires 0 <= i < |blocks| =>
      Block(blocks[i].id, Collect(blocks[i].txs, None, [], RepliesFor(replies, i)).value))
  }

  /** Collects the transactions of every part of a block before anything is sent; one failure discards
      them all. */
  method CollectAll(blocks: seq<Block>, replies: seq<seq<Reply>>) returns (collected: Option<seq<Block>>)
    ensures collected.Some? <==> AllRead(blocks, replies)
    ensures collected.Some? ==> collected.value == AsRead(blocks, replies)
  {
    var items: seq<Block> := [];
    for i := 0 to |blocks|
      invariant |items| == i
      invariant forall j :: 0 <= j < i ==> Collect(blocks[j].txs, None, [], RepliesFor(replies, j)) == Ok(items[j].txs)
      invariant forall j :: 0 <= j < i ==> items[j].id == blocks[j].id
    {
      var txList := CollectBlockTransactions(blocks[i], RepliesFor(replies, i));
      if txList.Err? {
        return None;
      }
      items := items + [Block(blocks[i].id, txList.value)];
    }
    assert AllRead(blocks, replies);
    assert items == AsRead(blocks, replies);
    collected := Some(items);
  }

  /** Sends the events of the collected transactions until the connection drops. */
  method Emit(collected: seq<Block>, before: seq<TxEvent>, sends: nat) returns (events: seq<TxEvent>, delivered: bool)
    requires |before| <= sends
    ensures events == Sent(before + EventsOfAll(collected), sends)
    ensures delivered <==> |before + EventsOfAll(collected)| <= sends
  {
    hide EventsOf, EventsOfAll;
    events := before;
    ghost var all := before + EventsOfAll(collected);
    EventsOfNone(collected);
    for i := 0 to |collected|
      invariant |events| <= sends && events == before + EventsOfAll(collected[..i])
    {
      var block := collected[i];
      EventsOfOneMore(collected, i);
      EventsOfLength(block);
      ghost var done := events;
      for j := 0 to |block.txs|
        invariant |events| <= sends && events == done + EventsOf(block.id, block.txs)[..j]
      {
        if |events| == sends {
          assert events < done + EventsOf(block.id, block.txs) <= all;
          SentOfPrefix(events, all, sends);
          delivered := false;
          return;
        }
        EventsOfAt(block, j);
        events := events + [TxEvent(block.txs[j], block.id)];
      }
      assert EventsOf(block.id, block.txs)[..|block.txs|] == EventsOf(block.id, block.txs);
    }
    assert collected[..|collected|] == collected;
    delivered := true;
  }

  lemma EventsOfNone(blocks: seq<Block>)
    ensures EventsOfAll(blocks[..0]) == []
  {}

  lemma EventsOfLength(b: Block)
    ensures |EventsOf(b.id, b.txs)| == |b.txs|
  {}

  lemma EventsOfAt(b: Block, j: nat)
    requires j < |b.txs|
    ensures |EventsOf(b.id, b.txs)| == |b.txs| && EventsOf(b.id, b.txs)[j] == TxEvent(b.txs[j], b.id)
  {}

  lemma {:induction false} EventsOfOneMore(blocks: seq<Block>, i: nat)
    requires i < |blocks|
    ensures
      var next := EventsOfAll(blocks[..i]) + EventsOf(blocks[i].id, blocks[i].txs);
      next == EventsOfAll(blocks[..i + 1]) && next <= EventsOfAll(blocks)
    decreases |blocks|
  {
    var n := |blocks| - 1;
    assert blocks[..i + 1][..i] == blocks[..i];
    if i < n {
      assert blocks[..n][..i] == blocks[..i] && blocks[..n][..i + 1] == blocks[..i + 1];
      EventsOfOneMore(blocks[..n], i);
    } else {
      assert blocks[..i + 1] == blocks;
    }
  }

  /** Everything the loop asks for block seqno in a turn can be read. */
  predicate Good(m: Master, seqno: nat, round: Round) {
    round.next.ahead.Some? && round.next.found && round.shardsRead && AllRead([m(seqno).own] + m(seqno).shards, round.replies)
  }

  /** The last block that is read whole in the given turns. */
  function ReadUpTo(m: Master, start: nat, rounds: seq<Round>): (last: nat)
    ensures start <= last
  {
    if rounds == [] then start
    else
      var last := ReadUpTo(m, start, rounds[..|rounds| - 1]);
      if Good(m, last + 1, rounds[|rounds| - 1]) then last + 1 else last
  }

  /** The events of the blocks as they were read. */
  function EventsRead(m: Master, start: nat, rounds: seq<Round>): seq<TxEvent> {
    if rounds == [] then []
    else
      var front, round := rounds[..|rounds| - 1], rounds[|rounds| - 1];
      var last := ReadUpTo(m, start, front);
      EventsRead(m, start, front)
      + if Good(m, last + 1, round) then EventsOfAll(AsRead([m(last + 1).own] + m(last + 1).shards, round.replies)) else []
  }

  lemma {:induction false} EventsReadGrow(m: Master, start: nat, rounds: seq<Round>, k: nat)
    requires k <= |rounds|
    ensures EventsRead(m, start, rounds[..k]) <= EventsRead(m, start, rounds)
  {
    if k < |rounds| {
      assert rounds[..|rounds| - 1][..k] == rounds[..k];
      EventsReadGrow(m, start, rounds[..|rounds| - 1], k);
    } else {
      assert rounds[..k] == rounds;
    }
  }

  /** The loop of handleSubscribeNewTransactions, in turns as above. A turn sends nothing until everything
      in its block has been read; the events are those of the blocks so read, cut off only where the
      connection dropped. */
  method SubscribeNewTransactions(m: Master, start: nat, rounds: seq<Round>, sends: nat) returns (events: seq<TxEvent>)
    ensures events == Sent(EventsRead(m, start, rounds), sends)
  {
    hide EventsOfAll, AllRead, AsRead;
    events := [];
    var lastSeqno := start;
    for k := 0 to |rounds|
      invariant lastSeqno == ReadUpTo(m, start, rounds[..k])
      invariant |events| <= sends && events == EventsRead(m, start, rounds[..k])
    {
      assert rounds[..k + 1][..k] == rounds[..k];
      var block := NextMasterchainBlock(lastSeqno, rounds[k].next);
      if block.None? {
        continue;
      }
      if !rounds[k].shardsRead {
        continue;
      }
      var blocks := [m(block.value).own];
      blocks := blocks + m(block.value).shards;
      var collected := CollectAll(blocks, rounds[k].replies);
      if collected.None? {
        continue;
      }
      var delivered;
      events, delivered := Emit(collected.value, events, sends);
      if !delivered {
        EventsReadGrow(m, start, rounds, k + 1);
        SentOfPrefix(EventsRead(m, start, rounds[..k + 1]), EventsRead(m, start, rounds), sends);
        return;
      }
      lastSeqno := block.value;
    }
    assert rounds[..|rounds|] == rounds;
  }

  // What this comes to against a server that answers truthfully.

  /** The transactions of the masterchain blocks after start up to last: of each the block's own, then
      those of its shard tops in order. */
  function Stream(m: Master, start: nat, last: nat): seq<TxEvent>
    decreases last
  {
    if last <= start then []
    else Stream(m, start, last - 1) + EventsOf(m(last).own.id, m(last).own.txs) + EventsOfAll(m(last).shards)
  }

  lemma {:induction false} EventsOfAllCons(b: Block, blocks: seq<Block>)
    ensures EventsOfAll([b] + blocks) == EventsOf(b.id, b.txs) + EventsOfAll(blocks)
  {
    hide EventsOf;
    if blocks == [] {
      assert [b] + blocks == [b] && [b][..0] == [];
    } else {
      var n := |blocks| - 1;
      EventsOfAllCons(b, blocks[..n]);
      assert ([b] + blocks)[..n + 1] == [b] + blocks[..n];
    }
  }

  /** Every transaction of a block read, the block's own and those of each shard top alike, is an event
      that names its block. */
  lemma {:induction false} StreamContains(m: Master, start: nat, last: nat, k: nat, b: Block, j: nat)
    requires start < k <= last && (b == m(k).own || b in m(k).shards) && j < |b.txs|
    ensures TxEvent(b.txs[j], b.id) in Stream(m, start, last)
    decreases last
  {
    hide EventsOfAll;
    if k < last {
      StreamContains(m, start, last - 1, k, b, j);
    } else {
      assert EventsOf(b.id, b.txs)[j] == TxEvent(b.txs[j], b.id);
      if b in m(k).shards {
        EventsOfAllContains(m(k).shards, b, j);
      }
    }
  }

  lemma {:induction false} EventsOfAllContains(blocks: seq<Block>, b: Block, j: nat)
    requires b in blocks && j < |b.txs|
    ensures TxEvent(b.txs[j], b.id) in EventsOfAll(blocks)
  {
    var n := |blocks| - 1;
    if b == blocks[n] {
      assert EventsOf(b.id, b.txs)[j] == TxEvent(b.txs[j], b.id);
    } else {
      EventsOfAllContains(blocks[..n], b, j);
    }
  }

  ghost predicate WellFormed(m: Master) {
    forall k: nat :: Distinct(m(k).own.txs) && forall i :: 0 <= i < |m(k).shards| ==> Distinct(m(k).shards[i].txs)
  }

  ghost predicate HonestRounds(rounds: seq<Round>) {
    forall k, j :: 0 <= k < |rounds| && 0 <= j < |rounds[k].replies| ==> Honest(rounds[k].replies[j])
  }

  lemma BlocksDistinct(m: Master, k: nat)
    requires WellFormed(m)
    ensures
      var blocks := [m(k).own] + m(k).shards;
      forall i :: 0 <= i < |blocks| ==> Distinct(blocks[i].txs)
  {
    hide Distinct;
  }

  lemma ReadAsTheyAre(blocks: seq<Block>, replies: seq<seq<Reply>>)
    requires forall i :: 0 <= i < |blocks| ==> Distinct(blocks[i].txs)
    requires forall j :: 0 <= j < |replies| ==> Honest(replies[j])
    requires AllRead(blocks, replies)
    ensures AsRead(blocks, replies) == blocks
  {
    hide Collect, Distinct;
    forall i | 0 <= i < |blocks| ensures AsRead(blocks, replies)[i] == blocks[i] {
      PaginationIsExact(blocks[i], RepliesFor(replies, i));
    }
  }

  /** The events are the transactions of every block from start+1 to the last one read, each block whole,
      once and in order: nothing is missed or sent twice, however often a block had to be read again. */
  lemma {:induction false} FollowingIsExact(m: Master, start: nat, rounds: seq<Round>)
    requires WellFormed(m) && HonestRounds(rounds)
    ensures EventsRead(m, start, rounds) == Stream(m, start, ReadUpTo(m, start, rounds))
  {
    hide EventsOfAll, AllRead, AsRead, Honest, Distinct;
    if rounds != [] {
      var front, round := rounds[..|rounds| - 1], rounds[|rounds| - 1];
      FollowingIsExact(m, start, front);
      var next := ReadUpTo(m, start, front) + 1;
      if Good(m, next, round) {
        BlocksDistinct(m, next);
        ReadAsTheyAre([m(next).own] + m(next).shards, round.replies);
        EventsOfAllCons(m(next).own, m(next).shards);
      }
    }
  }

  /** Enough answers, none of them an error, for the block itself and for each of its shard tops, read it
      whole at once. */
  lemma GoodTurn(m: Master, seqno: nat, round: Round)
    requires WellFormed(m) && HonestRounds([round])
    requires round.next.ahead.Some? && round.next.found && round.shardsRead
    requires |round.replies| == 1 + |m(seqno).shards|
    requires |round.replies[0]| > |m(seqno).own.txs|
    requires forall i :: 0 <= i < |m(seqno).shards| ==> |round.replies[i + 1]| > |m(seqno).shards[i].txs|
    requires forall i, k :: 0 <= i < |round.replies| && 0 <= k < |round.replies[i]| ==> !round.replies[i][k].Failed?
    ensures Good(m, seqno, round)
  {
    hide Collect, Distinct;
    var blocks := [m(seqno).own] + m(seqno).shards;
    BlocksDistinct(m, seqno);
    assert [round][0] == round;
    forall i | 0 <= i < |blocks| ensures Collect(blocks[i].txs, None, [], RepliesFor(round.replies, i)).Ok? {
      if i > 0 {
        assert blocks[i] == m(seqno).shards[i - 1];
        assert |round.replies[i - 1 + 1]| > |m(seqno).shards[i - 1].txs|;
      }
      PaginationIsExact(blocks[i], round.replies[i]);
    }
  }
}
