/** Walking an account's history backward: finding a transaction by its LT, and watching for the
    transaction that an external message causes. */
module AccountHistory {
  import opened Basics

  datatype StateInit = StateInit(code: Option<nat>, data: Option<nat>)

  /** An incoming message; body, code and data are given by their hashes. */
  datatype InMsg = InMsg(external: bool, init: Option<StateInit>, body: Option<nat>)

  datatype Tx = Tx(lt: nat, hash: nat, prevLT: nat, prevHash: nat, inMsg: Option<InMsg>)

  /** What an account says about its last transaction; both are zero-like if it has none. */
  datatype Account = Account(lastLT: nat, lastHash: nat)

  predicate Linked(txs: seq<Tx>, i: nat)
    requires i < |txs|
  {
    if i == 0 then txs[0].prevLT == 0 else txs[i].prevLT == txs[i - 1].lt && txs[i].prevHash == txs[i - 1].hash
  }

  /** A whole history, oldest first: LTs grow and each transaction names the one before it. */
  ghost predicate Chain(txs: seq<Tx>) {
    && (forall i :: 0 <= i < |txs| ==> txs[i].lt > 0)
    && (forall i, j :: 0 <= i < j < |txs| ==> txs[i].lt < txs[j].lt)
    && (forall i :: 0 <= i < |txs| ==> Linked(txs, i))
  }

  /** The account after its first n transactions. */
  predicate At(txs: seq<Tx>, n: nat, acc: Account) {
    n <= |txs| && (if n == 0 then acc.lastLT == 0 else acc == Account(txs[n - 1].lt, txs[n - 1].hash))
  }

  lemma SameLT(txs: seq<Tx>, i: nat, j: nat)
    requires Chain(txs) && i < |txs| && j < |txs| && txs[i].lt == txs[j].lt
    ensures i == j
  {}

  lemma ZeroLT(txs: seq<Tx>, n: nat, acc: Account)
    requires Chain(txs) && At(txs, n, acc)
    ensures acc.lastLT == 0 <==> n == 0
  {}

  /** One answer to a request for a page: an error, or so many transactions. */
  datatype Answer = Failure | Page(size: nat)

  /** The number of transactions with an LT of at most lt. */
  function UpTo(txs: seq<Tx>, lt: nat): (n: nat)
    ensures n <= |txs|
  {
    if txs == [] then 0 else if txs[|txs| - 1].lt <= lt then |txs| else UpTo(txs[..|txs| - 1], lt)
  }

  lemma {:induction false} UpToAt(txs: seq<Tx>, n: nat)
    requires 0 < n <= |txs| && forall i, j :: 0 <= i < j < |txs| ==> txs[i].lt < txs[j].lt
    ensures UpTo(txs, txs[n - 1].lt) == n
  {
    if n < |txs| {
      UpToAt(txs[..|txs| - 1], n);
    }
  }

  function PageSize(n: nat, limit: nat, size: nat): (k: nat)
    ensures k <= n
  {
    var k := if size < limit then size else limit;
    if k < n then k else n
  }

  /** The page that ends at the transaction with this LT, oldest first. */
  function ListTransactions(txs: seq<Tx>, lt: nat, limit: nat, size: nat): seq<Tx> {
    var n := UpTo(txs, lt);
    txs[n - PageSize(n, limit, size)..n]
  }

  /** Following prevLT from the oldest of a page leads to the transactions before it. */
  lemma PageStep(txs: seq<Tx>, n: nat, limit: nat, size: nat)
    requires Chain(txs) && 0 < n <= |txs|
    ensures
      var page, k := ListTransactions(txs, txs[n - 1].lt, limit, size), PageSize(n, limit, size);
      page == txs[n - k..n] && (k > 0 ==> At(txs, n - k, Account(page[0].prevLT, page[0].prevHash)))
  {
    UpToAt(txs, n);
    var k := PageSize(n, limit, size);
    assert k > 0 ==> Linked(txs, n - k);
  }

  // ---------------------------------------------------------------- a transaction by its LT

  const PAGE: nat := 100

  datatype Lookup = Found(tx: Tx) | NotFound | ListError

  /** How many of n transactions the answers leave unread. */
  function Unread(n: nat, limit: nat, answers: seq<Answer>): (left: nat)
    ensures left <= n
    decreases answers
  {
    if n == 0 || answers == [] || answers[0].Failure? then n
    else
      var k := PageSize(n, limit, answers[0].size);
      if k == 0 then n else Unread(n - k, limit, answers[1..])
  }

  /** Some answer in the walk is an error, or there is no answer in time. */
  predicate WalkFails(n: nat, limit: nat, answers: seq<Answer>)
    decreases answers
  {
    if n == 0 then false
    else if answers == [] || answers[0].Failure? then true
    else
      var k := PageSize(n, limit, answers[0].size);
      k > 0 && WalkFails(n - k, limit, answers[1..])
  }

  /** The loop over one page. */
  method FindOnPage(page: seq<Tx>, lt: nat) returns (r: Option<Tx>)
    ensures r.Some? ==> r.value in page && r.value.lt == lt
    ensures r.None? ==> forall i :: 0 <= i < |page| ==> page[i].lt != lt
  {
    for i := 0 to |page|
      invariant forall j :: 0 <= j < i ==> page[j].lt != lt
    {
      if page[i].lt == lt {
        return Some(page[i]);
      }
    }
    r := None;
  }

  lemma PageSearched(txs: seq<Tx>, lo: nat, hi: nat, lt: nat, r: Option<Tx>)
    requires lo <= hi <= |txs|
    requires r.Some? ==> r.value in txs[lo..hi] && r.value.lt == lt
    requires r.None? ==> forall i :: 0 <= i < hi - lo ==> txs[lo..hi][i].lt != lt
    ensures r.Some? ==> r.value in txs[..hi] && exists i :: lo <= i < hi && txs[i].lt == lt
    ensures r.None? ==> forall i :: lo <= i < hi ==> txs[i].lt != lt
  {
    if r.Some? {
      var i :| 0 <= i < hi - lo && txs[lo..hi][i] == r.value;
      assert txs[lo + i] == r.value == txs[..hi][lo + i];
    } else {
      forall i | lo <= i < hi ensures txs[i].lt != lt {
        assert txs[lo..hi][i - lo] == txs[i];
      }
    }
  }

  /** The loop of handleGetTransaction, for the account after its first n transactions. It finds the
      LT if and only if the LT is among the transactions that the server's answers cover; otherwise it
      reports an error exactly if an answer was one. An exhausted list of answers is the request's
      deadline. */
  method GetTransaction(txs: seq<Tx>, ghost n: nat, acc: Account, lt: nat, answers: seq<Answer>) returns (r: Lookup)
    requires Chain(txs) && At(txs, n, acc)
    ensures r.Found? <==> exists i :: Unread(n, PAGE, answers) <= i < n && txs[i].lt == lt
    ensures r.Found? ==> r.tx in txs[..n] && r.tx.lt == lt
    ensures !r.Found? ==> (r.ListError? <==> WalkFails(n, PAGE, answers))
  {
    hide Chain, UpTo, ListTransactions;
    var currentLT, currentHash := acc.lastLT, acc.lastHash;
    ghost var m: nat := n;
    var asked := 0;
    assert answers[0..] == answers;
    while currentLT != 0
      invariant asked <= |answers| && m <= n && At(txs, m, Account(currentLT, currentHash))
      invariant Unread(n, PAGE, answers) == Unread(m, PAGE, answers[asked..])
      invariant WalkFails(n, PAGE, answers) <==> WalkFails(m, PAGE, answers[asked..])
      invariant forall i :: m <= i < n ==> txs[i].lt != lt
      decreases m
    {
      if asked == |answers| || answers[asked].Failure? {
        return ListError;
      }
      ghost var k := PageSize(m, PAGE, answers[asked].size);
      PageStep(txs, m, PAGE, answers[asked].size);
      var txList := ListTransactions(txs, currentLT, PAGE, answers[asked].size);
      var hit := FindOnPage(txList, lt);
      PageSearched(txs, m - k, m, lt, hit);
      if hit.Some? {
        assert txs[..n][..m] == txs[..m];
        return Found(hit.value);
      }
      if |txList| == 0 {
        return NotFound;
      }
      currentLT, currentHash := txList[0].prevLT, txList[0].prevHash;
      assert answers[asked..][1..] == answers[asked + 1..];
      m, asked := m - k, asked + 1;
    }
    ZeroLT(txs, m, Account(currentLT, currentHash));
    r := NotFound;
  }

  /** The cursor of the walk strictly decreases. */
  lemma CursorFalls(txs: seq<Tx>, n: nat, limit: nat, size: nat)
    requires Chain(txs) && 0 < n <= |txs| && limit > 0 && size > 0
    ensures
      var lt := txs[n - 1].lt;
      var page := ListTransactions(txs, lt, limit, size);
      page != [] && page[0].prevLT < lt
  {
    PageStep(txs, n, limit, size);
  }

  /** A server that always answers, never with an empty page. */
  ghost predicate Serves(answers: seq<Answer>) {
    forall k :: 0 <= k < |answers| ==> answers[k].Page? && answers[k].size > 0
  }

  /** The walk fails exactly if, after some pages that were not empty and did not reach the start of the
      chain, an answer is an error or is missing. */
  lemma {:induction false} FailsExactly(n: nat, limit: nat, answers: seq<Answer>)
    requires limit > 0
    ensures WalkFails(n, limit, answers) <==> exists j :: 0 <= j <= |answers| && FailsAt(n, limit, answers, j)
    decreases answers
  {
    if n == 0 {
    } else if answers == [] || answers[0].Failure? {
      assert FailsAt(n, limit, answers, 0);
    } else {
      var k, rest := PageSize(n, limit, answers[0].size), answers[1..];
      if k > 0 {
        var left: nat := n - k;
        FailsExactly(left, limit, rest);
        if j :| 0 <= j <= |rest| && FailsAt(left, limit, rest, j) {
          FailsLater(n, limit, answers, j + 1);
        }
        if j :| 0 <= j <= |answers| && FailsAt(n, limit, answers, j) {
          FailsLater(n, limit, answers, j);
        }
      }
    }
  }

  ghost predicate FailsAt(n: nat, limit: nat, answers: seq<Answer>, j: nat)
    requires j <= |answers|
  {
    && (j == |answers| || answers[j].Failure?)
    && (forall i :: 0 <= i < j ==> answers[i].Page? && answers[i].size > 0)
    && Unread(n, limit, answers[..j]) > 0
  }

  lemma FailsLater(n: nat, limit: nat, answers: seq<Answer>, j: nat)
    requires limit > 0 && n > 0 && 1 <= j <= |answers| && answers[0].Page? && answers[0].size > 0
    ensures FailsAt(n, limit, answers, j) <==> FailsAt(n - PageSize(n, limit, answers[0].size), limit, answers[1..], j - 1)
  {
    var rest := answers[1..];
    assert answers[..j][1..] == rest[..j - 1];
    if FailsAt(n - PageSize(n, limit, answers[0].size), limit, rest, j - 1) {
      forall i | 0 <= i < j ensures answers[i].Page? && answers[i].size > 0 {
        assert i == 0 || answers[i] == rest[i - 1];
      }
    }
  }

  /** From such a server the walk reads everything; so GetTransaction finds an LT if and only if it is on
      the chain. */
  lemma {:induction false} ServedInFull(n: nat, limit: nat, answers: seq<Answer>)
    requires Serves(answers) && |answers| >= n && limit > 0
    ensures Unread(n, limit, answers) == 0 && !WalkFails(n, limit, answers)
    decreases n
  {
    if n > 0 {
      var k := PageSize(n, limit, answers[0].size);
      assert Serves(answers[1..]);
      ServedInFull(n - k, limit, answers[1..]);
    }
  }

  /** An empty page hides the rest of the history. */
  lemma EmptyPageHides(n: nat, limit: nat, answers: seq<Answer>)
    requires n > 0 && answers != [] && answers[0] == Page(0)
    ensures Unread(n, limit, answers) == n && !WalkFails(n, limit, answers)
  {}

  // ---------------------------------------------------------------- watching for a message

  const WATCH_PAGE: nat := 20

  /** An external message: its state init, if any, and its body. */
  datatype External = External(init: Option<StateInit>, body: Option<nat>)

  predicate SameInit(a: StateInit, b: StateInit) {
    a.code.Some? && a.data.Some? && b.code.Some? && b.data.Some? && a == b
  }

  /** The transaction was caused by this message, as far as body and state init tell. */
  predicate Matches(ext: External, tx: Tx) {
    && tx.inMsg.Some? && tx.inMsg.value.external
    && (ext.init.Some? ==> tx.inMsg.value.init.Some? && SameInit(ext.init.value, tx.inMsg.value.init.value))
    && tx.inMsg.value.body.Some? && ext.body == tx.inMsg.value.body
  }

  /** The checks of the loop over a page, in their order. They accept an external message with the same
      body and, if the watched message has a state init, one with the same code and data, all present. */
  method Accepts(ext: External, tx: Tx) returns (yes: bool)
    ensures yes <==> Matches(ext, tx)
    ensures yes <==>
      && tx.inMsg.Some? && tx.inMsg.value.external
      && ext.body.Some? && tx.inMsg.value.body.Some? && ext.body.value == tx.inMsg.value.body.value
      && (ext.init.Some? ==>
            && tx.inMsg.value.init.Some?
            && ext.init.value.code.Some? && tx.inMsg.value.init.value.code.Some?
            && ext.init.value.code.value == tx.inMsg.value.init.value.code.value
            && ext.init.value.data.Some? && tx.inMsg.value.init.value.data.Some?
            && ext.init.value.data.value == tx.inMsg.value.init.value.data.value)
  {
    if tx.inMsg.None? || !tx.inMsg.value.external {
      return false;
    }
    var in_ := tx.inMsg.value;
    if ext.init.Some? {
      var want := ext.init.value;
      if in_.init.None? || want.code.None? || want.data.None? || in_.init.value.code.None? || in_.init.value.data.None? {
        return false;
      }
      if want.code.value != in_.init.value.code.value || want.data.value != in_.init.value.data.value {
        return false;
      }
    }
    yes := in_.body.Some? && ext.body.Some? && in_.body.value == ext.body.value;
  }

  /** The first match in txs[lo..hi]. */
  function FirstMatch(ext: External, txs: seq<Tx>, lo: nat, hi: nat): (r: Option<nat>)
    requires lo <= hi <= |txs|
    ensures r.Some? ==> lo <= r.value < hi && Matches(ext, txs[r.value])
    ensures r.Some? ==> forall i :: lo <= i < r.value ==> !Matches(ext, txs[i])
    ensures r.None? ==> forall i :: lo <= i < hi ==> !Matches(ext, txs[i])
    decreases hi - lo
  {
    if lo == hi then None else if Matches(ext, txs[lo]) then Some(lo) else FirstMatch(ext, txs, lo + 1, hi)
  }

  /** How a scan ends: with a match, with an error, at the deadline, or having read down to a position. */
  datatype ScanEnd = Hit(i: nat) | Broken | Stopped | Finished(low: nat)

  /** The scan from n transactions down to a known ones, page by page. */
  function Scan(ext: External, txs: seq<Tx>, a: nat, n: nat, answers: seq<Answer>): (e: ScanEnd)
    requires n <= |txs|
    ensures e.Hit? ==> e.i < n && Matches(ext, txs[e.i])
    ensures e.Finished? ==> e.low <= n && forall i :: e.low <= i < n ==> !Matches(ext, txs[i])
    decreases answers
  {
    if n == 0 then Finished(0)
    else if answers == [] then Stopped
    else if answers[0].Failure? then Broken
    else
      var k := PageSize(n, WATCH_PAGE, answers[0].size);
      var hit := FirstMatch(ext, txs, n - k, n);
      if hit.Some? then Hit(hit.value)
      else if k == 0 || n - k <= a < n then Finished(n - k)
      else Scan(ext, txs, a, n - k, answers[1..])
  }

  /** One turn of the outer loop: an error, or the account after its first n transactions with the
      answers to the page requests. */
  datatype Round = BlockError | AccountError | Snapshot(n: nat, acc: Account, answers: seq<Answer>)

  ghost predicate Observed(txs: seq<Tx>, rounds: seq<Round>) {
    forall k :: 0 <= k < |rounds| && rounds[k].Snapshot? ==> At(txs, rounds[k].n, rounds[k].acc)
  }

  predicate InRange(txs: seq<Tx>, rounds: seq<Round>) {
    forall j :: 0 <= j < |rounds| && rounds[j].Snapshot? ==> rounds[j].n <= |txs|
  }

  /** Confirmed by transaction i, at the block of the given round; still watching, with a transactions
      known; or stopped by the deadline in the middle of a scan. */
  datatype Watched = Confirmed(i: nat, round: nat) | Watching(a: nat, resent: nat) | Interrupted

  /** The watch after its first k rounds, from an account with a transactions. */
  function Watch(ext: External, txs: seq<Tx>, a: nat, rounds: seq<Round>, k: nat): (w: Watched)
    requires k <= |rounds| && InRange(txs, rounds)
    ensures w.Confirmed? ==> w.i < |txs|
    decreases k
  {
    if k == 0 then Watching(a, 0)
    else
      var before, round := Watch(ext, txs, a, rounds, k - 1), rounds[k - 1];
      if !before.Watching? || !round.Snapshot? then before
      else if round.n == before.a then before.(resent := before.resent + 1)
      else
        match Scan(ext, txs, before.a, round.n, round.answers)
        case Hit(i) => Confirmed(i, k - 1)
        case Broken => before
        case Stopped => Interrupted
        case Finished(_) => before.(a := round.n)
  }

  /** What a scan reports: the transaction itself rather than its position. */
  datatype ScanReport = Accepted(tx: Tx) | ListFailed | Deadline | Scanned

  function Report(txs: seq<Tx>, e: ScanEnd): ScanReport
    requires e.Hit? ==> e.i < |txs|
  {
    match e
    case Hit(i) => Accepted(txs[i])
    case Broken => ListFailed
    case Stopped => Deadline
    case Finished(_) => Scanned
  }

  /** The loop over one page: the first match, and whether a transaction before it follows the known one. */
  method ScanPage(ext: External, acc: Account, page: seq<Tx>) returns (hit: Option<nat>, sawPrevious: bool)
    ensures hit == FirstMatch(ext, page, 0, |page|)
    ensures hit.None? ==> (sawPrevious <==> exists j :: 0 <= j < |page| && Follows(page[j], acc))
  {
    sawPrevious := false;
    for i := 0 to |page|
      invariant FirstMatch(ext, page, 0, |page|) == FirstMatch(ext, page, i, |page|)
      invariant sawPrevious <==> exists j :: 0 <= j < i && Follows(page[j], acc)
    {
      if page[i].prevLT == acc.lastLT && page[i].prevHash == acc.lastHash {
        sawPrevious := true;
      }
      var yes := Accepts(ext, page[i]);
      if yes {
        return Some(i), sawPrevious;
      }
    }
    hit := None;
  }

  predicate Follows(tx: Tx, acc: Account) { tx.prevLT == acc.lastLT && tx.prevHash == acc.lastHash }

  lemma {:induction false} FirstMatchOnPage(ext: External, txs: seq<Tx>, lo: nat, hi: nat, from: nat)
    requires lo + from <= hi <= |txs|
    ensures
      var r := FirstMatch(ext, txs[lo..hi], from, hi - lo);
      FirstMatch(ext, txs, lo + from, hi) == if r.Some? then Some(lo + r.value) else None
    decreases hi - from
  {
    if lo + from < hi && !Matches(ext, txs[lo + from]) {
      FirstMatchOnPage(ext, txs, lo, hi, from + 1);
    }
  }

  lemma FollowerIsNext(txs: seq<Tx>, a: nat, acc: Account, i: nat)
    requires Chain(txs) && At(txs, a, acc) && i < |txs| && Follows(txs[i], acc)
    ensures i == a
  {
    ZeroLT(txs, a, acc);
    assert Linked(txs, i);
    if i > 0 {
      assert txs[i - 1].lt > 0;
      SameLT(txs, i - 1, a - 1);
    }
  }

  /** On a page of the chain, a transaction follows the known ones exactly if they end inside the page;
      the first transaction of all may or may not say so. */
  lemma FollowsOnPage(txs: seq<Tx>, a: nat, acc: Account, lo: nat, hi: nat)
    requires Chain(txs) && At(txs, a, acc) && lo <= hi <= |txs|
    ensures lo <= a < hi && a > 0 ==> exists j :: 0 <= j < hi - lo && Follows(txs[lo..hi][j], acc)
    ensures (exists j :: 0 <= j < hi - lo && Follows(txs[lo..hi][j], acc)) ==> lo <= a < hi
  {
    if lo <= a < hi && a > 0 {
      assert Linked(txs, a);
      assert Follows(txs[lo..hi][a - lo], acc);
    }
    forall j | 0 <= j < hi - lo && Follows(txs[lo..hi][j], acc) ensures lo + j == a {
      FollowerIsNext(txs, a, acc, lo + j);
    }
  }

  /** One page of a scan. */
  lemma ScanStep(ext: External, txs: seq<Tx>, a: nat, m: nat, answers: seq<Answer>)
    requires 0 < m <= |txs| && answers != [] && answers[0].Page?
    ensures
      var k := PageSize(m, WATCH_PAGE, answers[0].size);
      var hit, e := FirstMatch(ext, txs, m - k, m), Scan(ext, txs, a, m, answers);
      && (hit.Some? ==> e == Hit(hit.value))
      && (hit.None? && (k == 0 || m - k <= a < m) ==> e == Finished(m - k))
      && (hit.None? && k != 0 && !(m - k <= a < m) ==> e == Scan(ext, txs, a, m - k, answers[1..]))
  {
    hide FirstMatch, Matches;
  }

  lemma ScanEndsNow(ext: External, txs: seq<Tx>, a: nat, m: nat, answers: seq<Answer>)
    requires m <= |txs|
    ensures m == 0 ==> Scan(ext, txs, a, m, answers) == Finished(0)
    ensures m > 0 && answers == [] ==> Scan(ext, txs, a, m, answers) == Stopped
    ensures m > 0 && answers != [] && answers[0].Failure? ==> Scan(ext, txs, a, m, answers) == Broken
  {}

  /** One turn of the scan's loop: fetches the page that ends at the cursor, searches it, and moves the
      cursor. The scan is done if the page reaches the known transactions or is empty; from a known account
      without transactions it may instead go on to the start of the chain. */
  method ScanOnePage(ext: External, txs: seq<Tx>, ghost a: nat, acc: Account, ghost m: nat, cursor: Account, answer: Answer)
    returns (hit: Option<Tx>, finished: bool, next: Account)
    requires Chain(txs) && At(txs, a, acc) && m > 0 && At(txs, m, cursor) && answer.Page?
    ensures
      var k := PageSize(m, WATCH_PAGE, answer.size);
      var first := FirstMatch(ext, txs, m - k, m);
      && hit == (if first.Some? then Some(txs[first.value]) else None)
      && (finished && first.None? ==> k == 0 || m - k <= a < m)
      && (!finished && first.None? ==> k > 0 && At(txs, m - k, next) && (m - k <= a < m ==> m - k == 0))
  {
    hide Chain, Matches, FirstMatch, UpTo, ListTransactions, Follows, PageSize;
    ghost var k := PageSize(m, WATCH_PAGE, answer.size);
    PageStep(txs, m, WATCH_PAGE, answer.size);
    var txList := ListTransactions(txs, cursor.lastLT, WATCH_PAGE, answer.size);
    FirstMatchOnPage(ext, txs, m - k, m, 0);
    FollowsOnPage(txs, a, acc, m - k, m);
    var i, sawPrevious := ScanPage(ext, acc, txList);
    next := if |txList| > 0 then Account(txList[0].prevLT, txList[0].prevHash) else cursor;
    hit := if i.Some? then Some(txList[i.value]) else None;
    finished := sawPrevious || |txList| == 0;
  }

  /** One scan of waitForExternalMessage, by LT and hash. An exhausted list of answers is the deadline. */
  method ScanHistory(ext: External, txs: seq<Tx>, ghost a: nat, acc: Account, ghost n: nat, newAcc: Account, answers: seq<Answer>)
    returns (r: ScanReport)
    requires Chain(txs) && At(txs, a, acc) && At(txs, n, newAcc)
    ensures r == Report(txs, Scan(ext, txs, a, n, answers))
  {
    hide Chain, Matches, FirstMatch, Scan, PageSize;
    var cursor := newAcc;
    ghost var m: nat := n;
    var asked := 0;
    assert answers[0..] == answers;
    while cursor.lastLT != 0
      invariant asked <= |answers| && m <= n && At(txs, m, cursor)
      invariant Scan(ext, txs, a, n, answers) == Scan(ext, txs, a, m, answers[asked..])
      decreases |answers| - asked
    {
      ScanEndsNow(ext, txs, a, m, answers[asked..]);
      if asked == |answers| {
        return Deadline;
      }
      if answers[asked].Failure? {
        return ListFailed;
      }
      ScanStep(ext, txs, a, m, answers[asked..]);
      ghost var k := PageSize(m, WATCH_PAGE, answers[asked].size);
      var hit, finished;
      hit, finished, cursor := ScanOnePage(ext, txs, a, acc, m, cursor, answers[asked]);
      if hit.Some? {
        return Accepted(hit.value);
      }
      if finished {
        return Scanned;
      }
      assert answers[asked..][1..] == answers[asked + 1..];
      ScanEndsNow(ext, txs, a, m - k, answers[asked + 1..]);
      m, asked := m - k, asked + 1;
    }
    ZeroLT(txs, m, cursor);
    ScanEndsNow(ext, txs, a, m, answers[asked..]);
    r := Scanned;
  }

  /** What the caller of the watch gets. */
  datatype WatchReport = Seen(tx: Tx, round: nat) | TimedOut

  /** waitForExternalMessage, from an account with a transactions. An exhausted list of rounds is the
      deadline. */
  method WaitForExternalMessage(ext: External, txs: seq<Tx>, ghost a: nat, first: Account, rounds: seq<Round>)
    returns (r: WatchReport, resent: nat)
    requires Chain(txs) && At(txs, a, first) && Observed(txs, rounds)
    ensures
      var w := Watch(ext, txs, a, rounds, |rounds|);
      && (if w.Confirmed? then r == Seen(txs[w.i], w.round) else r == TimedOut)
      && (w.Watching? ==> resent == w.resent)
    ensures r.Seen? ==> r.tx in txs && Matches(ext, r.tx)
  {
    hide Chain, Scan;
    var acc := first;
    ghost var known: nat := a;
    resent := 0;
    for k := 0 to |rounds|
      invariant At(txs, known, acc)
      invariant Watch(ext, txs, a, rounds, k) == Watching(known, resent)
    {
      if !rounds[k].Snapshot? {
        continue;
      }
      var newAcc := rounds[k].acc;
      SameAccount(txs, known, acc, rounds[k].n, newAcc);
      if newAcc.lastLT == acc.lastLT {
        resent := resent + 1;
        continue;
      }
      var scan := ScanHistory(ext, txs, known, acc, rounds[k].n, newAcc, rounds[k].answers);
      match scan {
        case Accepted(tx) =>
          WatchStays(ext, txs, a, rounds, k + 1);
          WatchSound(ext, txs, a, rounds, k + 1);
          return Seen(tx, k), resent;
        case ListFailed =>
        case Deadline =>
          WatchStays(ext, txs, a, rounds, k + 1);
          return TimedOut, resent;
        case Scanned =>
          acc, known := newAcc, rounds[k].n;
      }
    }
    r := TimedOut;
  }

  /** Two accounts of one chain have the same last LT exactly if they have the same transactions. */
  lemma SameAccount(txs: seq<Tx>, a: nat, acc: Account, n: nat, newAcc: Account)
    requires Chain(txs) && At(txs, a, acc) && At(txs, n, newAcc)
    ensures acc.lastLT == newAcc.lastLT <==> a == n
  {}

  lemma {:induction false} WatchStays(ext: External, txs: seq<Tx>, a: nat, rounds: seq<Round>, k: nat)
    requires InRange(txs, rounds) && k <= |rounds| && !Watch(ext, txs, a, rounds, k).Watching?
    ensures Watch(ext, txs, a, rounds, |rounds|) == Watch(ext, txs, a, rounds, k)
    decreases |rounds| - k
  {
    if k < |rounds| {
      assert Watch(ext, txs, a, rounds, k + 1) == Watch(ext, txs, a, rounds, k);
      WatchStays(ext, txs, a, rounds, k + 1);
    }
  }

  /** An empty page is answered before the pages reach the known transactions. */
  predicate CutShort(a: nat, n: nat, answers: seq<Answer>)
    decreases answers
  {
    && n > a && answers != [] && answers[0].Page?
    && (answers[0].size == 0 || CutShort(a, n - PageSize(n, WATCH_PAGE, answers[0].size), answers[1..]))
  }

  /** A finished scan covers the whole gap if and only if no empty page cut it short. */
  lemma {:induction false} CoversUnlessCutShort(ext: External, txs: seq<Tx>, a: nat, n: nat, answers: seq<Answer>)
    requires n <= |txs|
    ensures
      var e := Scan(ext, txs, a, n, answers);
      e.Finished? ==> (e.low <= a <==> !CutShort(a, n, answers))
    decreases answers
  {
    hide Matches, FirstMatch;
    if n > 0 && answers != [] && answers[0].Page? {
      CoversUnlessCutShort(ext, txs, a, n - PageSize(n, WATCH_PAGE, answers[0].size), answers[1..]);
    }
  }

  /** None of the first k scans was cut short. */
  ghost predicate Uncut(ext: External, txs: seq<Tx>, a: nat, rounds: seq<Round>, k: nat)
    requires InRange(txs, rounds) && k <= |rounds|
  {
    forall j :: 0 <= j < k && rounds[j].Snapshot? ==>
      var w := Watch(ext, txs, a, rounds, j);
      w.Watching? ==> !CutShort(w.a, rounds[j].n, rounds[j].answers)
  }

  /** A confirmed transaction matches the message in body and state init, and was on the chain at the
      block that is reported with it. */
  lemma {:induction false} WatchSound(ext: External, txs: seq<Tx>, a: nat, rounds: seq<Round>, k: nat)
    requires InRange(txs, rounds) && k <= |rounds|
    ensures
      var w := Watch(ext, txs, a, rounds, k);
      w.Confirmed? ==> w.round < k && rounds[w.round].Snapshot? && w.i < rounds[w.round].n && Matches(ext, txs[w.i])
    decreases k
  {
    hide Scan, Matches;
    if k > 0 {
      WatchSound(ext, txs, a, rounds, k - 1);
    }
  }

  /** While the watch goes on, no transaction between the first snapshot and the current one matches:
      failed scans, failed blocks and resends lose nothing. */
  lemma {:induction false} WatchComplete(ext: External, txs: seq<Tx>, a: nat, rounds: seq<Round>, k: nat)
    requires InRange(txs, rounds) && k <= |rounds| && Uncut(ext, txs, a, rounds, k)
    ensures
      var w := Watch(ext, txs, a, rounds, k);
      w.Watching? ==> forall i :: a <= i < w.a && i < |txs| ==> !Matches(ext, txs[i])
    decreases k
  {
    hide Scan, Matches, FirstMatch, CutShort, Uncut;
    if k > 0 {
      var before, round := Watch(ext, txs, a, rounds, k - 1), rounds[k - 1];
      UncutFront(ext, txs, a, rounds, k);
      WatchComplete(ext, txs, a, rounds, k - 1);
      if before.Watching? && round.Snapshot? {
        CoversUnlessCutShort(ext, txs, before.a, round.n, round.answers);
      }
    }
  }

  lemma UncutFront(ext: External, txs: seq<Tx>, a: nat, rounds: seq<Round>, k: nat)
    requires InRange(txs, rounds) && 0 < k <= |rounds| && Uncut(ext, txs, a, rounds, k)
    ensures Uncut(ext, txs, a, rounds, k - 1)
    ensures
      var w := Watch(ext, txs, a, rounds, k - 1);
      rounds[k - 1].Snapshot? && w.Watching? ==> !CutShort(w.a, rounds[k - 1].n, rounds[k - 1].answers)
  {
    hide Watch, CutShort;
  }

  /** Once a round reads the account after a matching transaction, and its pages all arrive, the watch has
      confirmed a match, whatever errors came before, unless the deadline fell into an earlier scan. */
  lemma WatchFinds(ext: External, txs: seq<Tx>, a: nat, rounds: seq<Round>, m: nat)
    requires InRange(txs, rounds) && rounds != [] && Uncut(ext, txs, a, rounds, |rounds| - 1)
    requires
      var last := rounds[|rounds| - 1];
      last.Snapshot? && a <= m < last.n && Serves(last.answers) && |last.answers| >= last.n
    requires Matches(ext, txs[m])
    requires forall j :: 0 <= j < |rounds| - 1 ==> !RanOut(rounds[j])
    ensures Watch(ext, txs, a, rounds, |rounds|).Confirmed?
  {
    hide Scan, Matches, Serves, FirstMatch, Watch, RanOut, Uncut;
    var last, before := rounds[|rounds| - 1], Watch(ext, txs, a, rounds, |rounds| - 1);
    NextRound(ext, txs, a, rounds, |rounds| - 1);
    WatchComplete(ext, txs, a, rounds, |rounds| - 1);
    if before.Interrupted? {
      InterruptedByDeadline(ext, txs, a, rounds, |rounds| - 1);
    } else if before.Watching? {
      ServedScanHits(ext, txs, before.a, last.n, last.answers, m);
    }
  }

  /** A confirmation stays, and a scan that hits confirms. */
  lemma NextRound(ext: External, txs: seq<Tx>, a: nat, rounds: seq<Round>, k: nat)
    requires InRange(txs, rounds) && k < |rounds| && rounds[k].Snapshot?
    ensures
      var before, w := Watch(ext, txs, a, rounds, k), Watch(ext, txs, a, rounds, k + 1);
      && (before.Confirmed? ==> w == before)
      && (before.Watching? && rounds[k].n != before.a && Scan(ext, txs, before.a, rounds[k].n, rounds[k].answers).Hit? ==>
            w.Confirmed?)
  {
    hide Scan;
  }

  /** A scan whose pages all arrive finds a match above the known transactions. */
  lemma ServedScanHits(ext: External, txs: seq<Tx>, a: nat, n: nat, answers: seq<Answer>, m: nat)
    requires n <= |txs| && a <= m < n && Matches(ext, txs[m]) && Serves(answers) && |answers| >= n
    ensures Scan(ext, txs, a, n, answers).Hit?
  {
    hide Scan, Matches, Serves, FirstMatch;
    ScanEnds(ext, txs, a, n, answers);
    ServedIsUncut(a, n, answers);
    CoversUnlessCutShort(ext, txs, a, n, answers);
  }

  /** A scan runs into the deadline only when every answer was a page and there were too few of them. */
  lemma {:induction false} StoppedShort(ext: External, txs: seq<Tx>, a: nat, n: nat, answers: seq<Answer>)
    requires n <= |txs| && Scan(ext, txs, a, n, answers).Stopped?
    ensures |answers| < n && forall p :: 0 <= p < |answers| ==> answers[p].Page?
    decreases answers
  {
    hide Matches, FirstMatch;
    if answers != [] {
      StoppedShort(ext, txs, a, n - PageSize(n, WATCH_PAGE, answers[0].size), answers[1..]);
      forall p | 0 <= p < |answers| ensures answers[p].Page? {
        assert p == 0 || answers[p] == answers[1..][p - 1];
      }
    }
  }

  /** The answers of the round are all pages, and too few. */
  ghost predicate RanOut(round: Round) {
    round.Snapshot? && |round.answers| < round.n && forall p :: 0 <= p < |round.answers| ==> round.answers[p].Page?
  }

  /** Nothing but the deadline inside a scan ends the watch without a confirmation: not a block error, an
      account error or a failed list. */
  lemma {:induction false} InterruptedByDeadline(ext: External, txs: seq<Tx>, a: nat, rounds: seq<Round>, k: nat)
    requires InRange(txs, rounds) && k <= |rounds| && Watch(ext, txs, a, rounds, k).Interrupted?
    ensures exists j :: 0 <= j < k && RanOut(rounds[j])
    decreases k
  {
    hide Scan, Matches;
    if k > 0 {
      var before, round := Watch(ext, txs, a, rounds, k - 1), rounds[k - 1];
      if before.Interrupted? {
        InterruptedByDeadline(ext, txs, a, rounds, k - 1);
      } else {
        StoppedShort(ext, txs, before.a, round.n, round.answers);
        assert RanOut(rounds[k - 1]);
      }
    }
  }

  /** The message is sent again in exactly the rounds in which the account has not moved. */
  lemma ResentWhileQuiet(ext: External, txs: seq<Tx>, a: nat, rounds: seq<Round>, k: nat)
    requires InRange(txs, rounds) && k < |rounds|
    ensures
      var before, w := Watch(ext, txs, a, rounds, k), Watch(ext, txs, a, rounds, k + 1);
      w.Watching? ==>
        before.Watching? && w.resent == before.resent + (if rounds[k].Snapshot? && rounds[k].n == before.a then 1 else 0)
  {
    hide Scan, Matches;
  }

  lemma {:induction false} ServedIsUncut(a: nat, n: nat, answers: seq<Answer>)
    requires Serves(answers)
    ensures !CutShort(a, n, answers)
    decreases answers
  {
    if answers != [] {
      assert Serves(answers[1..]);
      ServedIsUncut(a, n - PageSize(n, WATCH_PAGE, answers[0].size), answers[1..]);
    }
  }

  lemma {:induction false} ScanEnds(ext: External, txs: seq<Tx>, a: nat, n: nat, answers: seq<Answer>)
    requires n <= |txs| && Serves(answers) && |answers| >= n
    ensures var e := Scan(ext, txs, a, n, answers); e.Hit? || e.Finished?
    decreases n
  {
    hide Matches, FirstMatch;
    if n > 0 {
      assert Serves(answers[1..]);
      ScanEnds(ext, txs, a, n - PageSize(n, WATCH_PAGE, answers[0].size), answers[1..]);
    }
  }

  /** Cut short at once, the watch skips every transaction of the gap for good, matching or not. */
  lemma EmptyPageSkips(ext: External, txs: seq<Tx>, a: nat, n: nat, acc: Account)
    requires a < n <= |txs|
    ensures Watch(ext, txs, a, [Snapshot(n, acc, [Page(0)])], 1) == Watching(n, 0)
  {
    var rounds := [Snapshot(n, acc, [Page(0)])];
    assert Watch(ext, txs, a, rounds, 0) == Watching(a, 0);
  }
}
