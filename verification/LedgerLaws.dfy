/** What BooksOk means for the money: every bucket balance is a sum over the transaction rows,
    every journal balances, and nothing is discharged twice. */
module LedgerLaws {
  import opened Wrappers
  import opened Ledger

  /** What one transaction contributes to a bucket, read off its row alone (and, for a pix_in
      that failed, off whether it had been credited before). */
  function Position(tx: Tx, credited: bool, b: Bucket): int {
    match b
    case Reserved(account) =>
      if tx.account == account && tx.Outbound() && !tx.Terminal() then tx.Debit() else 0
    case Available(account) =>
      if tx.account != account then 0
      else if tx.Outbound() then (if tx.status == Failed then 0 else -tx.Debit())
      else if credited then tx.amount - tx.fee
      else 0
    case Clearing =>
      if tx.Outbound() then (if tx.status == Succeeded then tx.amount else 0) else if credited then -tx.amount else 0
    case PlatformRevenue =>
      if (if tx.Outbound() then tx.status == Succeeded else credited) then tx.fee else 0
  }

  function Positions(b: Books, ids: seq<Id>, bucket: Bucket): int
    requires forall id <- ids :: id in b.txs
  {
    if ids == [] then 0
    else Positions(b, ids[1..], bucket) + Position(b.txs[ids[0]], Trail(b.journals, ids[0]) != [], bucket)
  }

  /** Principal plus fee of the account's outbound payments that are neither completed nor failed. */
  function OpenDebits(txs: map<Id, Tx>, ids: seq<Id>, account: Id): int
    requires forall id <- ids :: id in txs
  {
    if ids == [] then 0
    else
      var tx := txs[ids[0]];
      OpenDebits(txs, ids[1..], account)
      + if tx.Outbound() && tx.account == account
             && (tx.status == Pending || tx.status == Ambiguous) then tx.amount + tx.fee
        else 0
  }

  function TrailBalances(journals: seq<Journal>, ids: seq<Id>, bucket: Bucket): int {
    if ids == [] then 0 else TrailBalances(journals, ids[1..], bucket) + Balance(Trail(journals, ids[0]), bucket)
  }

  lemma {:induction false} PostToOneTrail(journals: seq<Journal>, j: Journal, ids: seq<Id>, bucket: Bucket)
    requires forall x, y :: 0 <= x < y < |ids| ==> ids[x] != ids[y]
    ensures TrailBalances(journals + [j], ids, bucket) ==
            TrailBalances(journals, ids, bucket) + if j.tx in ids then EntrySum(j.entries, bucket) else 0
  {
    if ids != [] {
      PostToOneTrail(journals, j, ids[1..], bucket);
      PostAppendsTo(journals, j, bucket, ids[0]);
      PostAppendsTo(Trail(journals, ids[0]), j, bucket, ids[0]);
      assert j.tx in ids <==> j.tx == ids[0] || j.tx in ids[1..];
    }
  }

  /** The ledger splits into the trails of its transactions: no journal is lost or counted twice. */
  lemma {:induction false} BalanceSplitsByTransaction(journals: seq<Journal>, ids: seq<Id>, bucket: Bucket)
    requires forall x, y :: 0 <= x < y < |ids| ==> ids[x] != ids[y]
    requires forall j <- journals :: j.tx in ids
    ensures Balance(journals, bucket) == TrailBalances(journals, ids, bucket)
  {
    if journals == [] {
      EmptyTrails(ids, bucket);
    } else {
      var front, last := journals[..|journals| - 1], journals[|journals| - 1];
      assert journals == front + [last];
      BalanceSplitsByTransaction(front, ids, bucket);
      PostToOneTrail(front, last, ids, bucket);
    }
  }

  lemma EmptyTrails(ids: seq<Id>, bucket: Bucket)
    ensures TrailBalances([], ids, bucket) == 0
  {
  }

  lemma BalanceOfTwo(x: Journal, y: Journal, bucket: Bucket)
    ensures Balance([x], bucket) == EntrySum(x.entries, bucket)
    ensures Balance([x, y], bucket) == EntrySum(x.entries, bucket) + EntrySum(y.entries, bucket)
  {
    PostAppendsTo([], x, bucket, 0);
    PostAppendsTo([x], y, bucket, 0);
    assert [] + [x] == [x] && [x] + [y] == [x, y];
  }

  lemma TrailBalanceIsPosition(id: Id, tx: Tx, trail: seq<Journal>, bucket: Bucket)
    requires TrailOk(id, tx, trail) && tx.fee >= 0
    ensures Balance(trail, bucket) == Position(tx, trail != [], bucket)
  {
    JournalEffects(id, tx, bucket);
    if |trail| == 1 {
      BalanceOfTwo(trail[0], trail[0], bucket);
    } else if |trail| == 2 {
      BalanceOfTwo(trail[0], trail[1], bucket);
    }
  }

  lemma {:induction false} TrailsArePositions(b: Books, ids: seq<Id>, bucket: Bucket)
    requires TrailsOk(b) && RowsOk(b.txs) && forall id <- ids :: id in b.txs
    ensures TrailBalances(b.journals, ids, bucket) == Positions(b, ids, bucket)
  {
    if ids != [] {
      TrailsArePositions(b, ids[1..], bucket);
      TrailBalanceIsPosition(ids[0], b.txs[ids[0]], Trail(b.journals, ids[0]), bucket);
    }
  }

  /** Every bucket balance is the sum of the rows' positions. */
  lemma BalanceIsPositions(b: Books, bucket: Bucket)
    requires BooksOk(b)
    ensures Balance(b.journals, bucket) == Positions(b, b.order, bucket)
  {
    BalanceSplitsByTransaction(b.journals, b.order, bucket);
    TrailsArePositions(b, b.order, bucket);
  }

  lemma {:induction false} ReservedPositionsAreOpenDebits(b: Books, ids: seq<Id>, account: Id)
    requires forall id <- ids :: id in b.txs
    ensures Positions(b, ids, Reserved(account)) == OpenDebits(b.txs, ids, account)
  {
    if ids != [] {
      ReservedPositionsAreOpenDebits(b, ids[1..], account);
    }
  }

  /** An account's reserved balance is exactly its open outbound payments, fees included. */
  lemma ReservedIsOpenDebits(b: Books, account: Id)
    requires BooksOk(b)
    ensures Balance(b.journals, Reserved(account)) == OpenDebits(b.txs, b.order, account)
  {
    BalanceIsPositions(b, Reserved(account));
    ReservedPositionsAreOpenDebits(b, b.order, account);
  }

  lemma {:induction false} InItsTrail(journals: seq<Journal>, j: Journal)
    requires j in journals
    ensures j in Trail(journals, j.tx)
  {
    var front, last := journals[..|journals| - 1], journals[|journals| - 1];
    if j != last {
      assert journals == front + [last];
      InItsTrail(front, j);
    }
  }

  lemma EveryJournalBalances(b: Books, j: Journal)
    requires BooksOk(b) && j in b.journals
    ensures EntryTotal(j.entries) == 0
  {
    InItsTrail(b.journals, j);
    JournalEffects(j.tx, b.txs[j.tx], Clearing);
  }

  /** How many journals of a kind a transaction has. */
  function Posted(journals: seq<Journal>, id: Id, kind: JournalKind): nat {
    if journals == [] then 0
    else
      var last := journals[|journals| - 1];
      Posted(journals[..|journals| - 1], id, kind) + if last.tx == id && last.kind == kind then 1 else 0
  }

  lemma {:induction false} PostedInTrail(journals: seq<Journal>, id: Id, kind: JournalKind)
    ensures Posted(journals, id, kind) == Posted(Trail(journals, id), id, kind)
  {
    if journals != [] {
      var front, last := journals[..|journals| - 1], journals[|journals| - 1];
      PostedInTrail(front, id, kind);
      if last.tx == id {
        assert Trail(journals, id) == Trail(front, id) + [last];
        PostedAppend(Trail(front, id), last, id, kind);
      } else {
        assert Trail(journals, id) == Trail(front, id) + [];
        assert Trail(journals, id) == Trail(front, id);
      }
    }
  }

  lemma PostedAppend(journals: seq<Journal>, j: Journal, id: Id, kind: JournalKind)
    ensures Posted(journals + [j], id, kind)
            == Posted(journals, id, kind) + if j.tx == id && j.kind == kind then 1 else 0
  {
    assert (journals + [j])[..|journals|] == journals;
  }

  lemma PostedOfTwo(x: Journal, y: Journal, id: Id, kind: JournalKind)
    ensures Posted([x], id, kind) == if x.tx == id && x.kind == kind then 1 else 0
    ensures Posted([x, y], id, kind) == Posted([x], id, kind) + if y.tx == id && y.kind == kind then 1 else 0
  {
    PostedAppend([], x, id, kind);
    PostedAppend([x], y, id, kind);
    assert [] + [x] == [x] && [x] + [y] == [x, y];
  }

  lemma TrailCounts(id: Id, tx: Tx, trail: seq<Journal>, kind: JournalKind)
    requires TrailOk(id, tx, trail)
    ensures Posted(trail, id, kind) ==
            match kind
            case ReserveOutbound => if tx.Outbound() then 1 else 0
            case CompletedOutbound => if tx.Outbound() && tx.status == Succeeded then 1 else 0
            case ReleasedOutbound => if tx.Outbound() && tx.status == Failed then 1 else 0
            case SettledPixIn => if !tx.Outbound() && trail != [] then 1 else 0
  {
    PostedOfTwo(ReserveJournal(id, tx), CompleteJournal(id, tx), id, kind);
    PostedOfTwo(ReserveJournal(id, tx), ReleaseJournal(id, tx), id, kind);
    PostedOfTwo(SettleJournal(id, tx), SettleJournal(id, tx), id, kind);
  }

  /** One reservation per outbound payment and one discharge when it is terminal, none before. */
  lemma OutboundDischargedOnce(b: Books, id: Id)
    requires BooksOk(b) && id in b.txs && b.txs[id].Outbound()
    ensures Posted(b.journals, id, ReserveOutbound) == 1 && Posted(b.journals, id, SettledPixIn) == 0
    ensures Posted(b.journals, id, CompletedOutbound) == if b.txs[id].status == Succeeded then 1 else 0
    ensures Posted(b.journals, id, ReleasedOutbound) == if b.txs[id].status == Failed then 1 else 0
  {
    var kinds := [ReserveOutbound, SettledPixIn, CompletedOutbound, ReleasedOutbound];
    forall k <- kinds ensures Posted(b.journals, id, k) == Posted(Trail(b.journals, id), id, k) {
      PostedInTrail(b.journals, id, k);
    }
    TrailCounts(id, b.txs[id], Trail(b.journals, id), ReserveOutbound);
    TrailCounts(id, b.txs[id], Trail(b.journals, id), SettledPixIn);
    TrailCounts(id, b.txs[id], Trail(b.journals, id), CompletedOutbound);
    TrailCounts(id, b.txs[id], Trail(b.journals, id), ReleasedOutbound);
    assert kinds[0] in kinds && kinds[1] in kinds && kinds[2] in kinds && kinds[3] in kinds;
  }

  /** At most one credit per pix_in: certainly one while it is succeeded, none while it is open. */
  lemma PixInCreditedOnce(b: Books, id: Id)
    requires BooksOk(b) && id in b.txs && b.txs[id].kind == PixIn
    ensures Posted(b.journals, id, SettledPixIn) <= 1
    ensures b.txs[id].status == Succeeded ==> Posted(b.journals, id, SettledPixIn) == 1
    ensures !b.txs[id].Terminal() ==> Posted(b.journals, id, SettledPixIn) == 0
  {
    PostedInTrail(b.journals, id, SettledPixIn);
    TrailCounts(id, b.txs[id], Trail(b.journals, id), SettledPixIn);
  }
}
