/** The financial tables and the SQL functions that change them (migrations 0001 and 0007).
    Each SQL function is one PostgreSQL transaction that locks the row it decides on (the account
    for begin_outbound, the transaction for the others), or inserts a row whose key is unique; so
    each is one atomic operation: the new tables, or None where it raises an exception. */
module Ledger {
  import opened Wrappers
  import Pricing

  type Id = nat

  datatype Kind = PixIn | Transfer | Withdrawal

  datatype Status = Pending | Succeeded | Failed | Ambiguous

  /** A row of transactions; `fee` is frozen when the row is inserted. */
  datatype Tx = Tx(org: Id, account: Id, provider: string, connection: Option<Id>,
                   externalId: Option<string>, kind: Kind, status: Status, amount: int, fee: int)
  {
    predicate Outbound() { kind != PixIn }

    predicate Terminal() { status == Succeeded || status == Failed }

    /** What an outbound payment takes from the account: principal and fee together. */
    function Debit(): int { amount + fee }
  }

  datatype Bucket = Available(account: Id) | Reserved(account: Id) | Clearing | PlatformRevenue

  datatype Entry = Entry(bucket: Bucket, amount: int)

  datatype JournalKind = ReserveOutbound | SettledPixIn | CompletedOutbound | ReleasedOutbound

  datatype Journal = Journal(tx: Id, kind: JournalKind, entries: seq<Entry>)

  datatype Account = Account(org: Id, active: bool)

  /** `order` lists the transaction ids in insertion order; `journals` only ever grows. */
  datatype Books = Books(accounts: map<Id, Account>, pricing: map<(Id, Kind), Pricing.Rule>,
                         txs: map<Id, Tx>, order: seq<Id>, journals: seq<Journal>)

  const EMPTY_BOOKS := Books(map[], map[], map[], [], [])

  // --- sums over the ledger -------------------------------------------------

  function EntrySum(entries: seq<Entry>, b: Bucket): int {
    if entries == [] then 0
    else (if entries[0].bucket == b then entries[0].amount else 0) + EntrySum(entries[1..], b)
  }

  function EntryTotal(entries: seq<Entry>): int {
    if entries == [] then 0 else entries[0].amount + EntryTotal(entries[1..])
  }

  function Balance(journals: seq<Journal>, b: Bucket): int {
    if journals == [] then 0
    else Balance(journals[..|journals| - 1], b) + EntrySum(journals[|journals| - 1].entries, b)
  }

  /** The journals of one transaction, oldest first. */
  function Trail(journals: seq<Journal>, id: Id): seq<Journal> {
    if journals == [] then []
    else
      var last := journals[|journals| - 1];
      Trail(journals[..|journals| - 1], id) + if last.tx == id then [last] else []
  }

  // --- the journals each SQL function posts -----------------------------------

  function ReserveJournal(id: Id, tx: Tx): Journal {
    Journal(id, ReserveOutbound, [Entry(Available(tx.account), -tx.Debit()), Entry(Reserved(tx.account), tx.Debit())])
  }

  function SettleJournal(id: Id, tx: Tx): Journal {
    Journal(id, SettledPixIn,
            if tx.fee > 0 then [Entry(Available(tx.account), tx.amount - tx.fee), Entry(PlatformRevenue, tx.fee),
                                Entry(Clearing, -tx.amount)]
            else [Entry(Available(tx.account), tx.amount), Entry(Clearing, -tx.amount)])
  }

  function CompleteJournal(id: Id, tx: Tx): Journal {
    Journal(id, CompletedOutbound,
            if tx.fee > 0 then [Entry(Reserved(tx.account), -tx.Debit()), Entry(Clearing, tx.amount),
                                Entry(PlatformRevenue, tx.fee)]
            else [Entry(Reserved(tx.account), -tx.amount), Entry(Clearing, tx.amount)])
  }

  function ReleaseJournal(id: Id, tx: Tx): Journal {
    Journal(id, ReleasedOutbound, [Entry(Reserved(tx.account), -tx.Debit()), Entry(Available(tx.account), tx.Debit())])
  }

  // --- the SQL functions ------------------------------------------------------

  predicate AccountUsable(b: Books, account: Id, org: Id) {
    account in b.accounts && b.accounts[account] == Account(org, true)
  }

  function QuoteFor(b: Books, org: Id, kind: Kind, amount: int): Option<int> {
    if amount <= 0 || (org, kind) !in b.pricing then None else Pricing.Quote(b.pricing[(org, kind)], amount)
  }

  function Insert(b: Books, id: Id, tx: Tx): Books {
    b.(txs := b.txs[id := tx], order := b.order + [id])
  }

  function Post(b: Books, j: Journal): Books {
    b.(journals := b.journals + [j])
  }

  function SetStatus(b: Books, id: Id, status: Status): Books
    requires id in b.txs
  {
    b.(txs := b.txs[id := b.txs[id].(status := status)])
  }

  function BeginPixIn(b: Books, id: Id, org: Id, account: Id, provider: string, connection: Option<Id>, amount: int)
    : Option<Books>
  {
    var fee := QuoteFor(b, org, PixIn, amount);
    if amount <= 0 || !AccountUsable(b, account, org) || fee.None? || fee.value >= amount || id in b.txs then None
    else Some(Insert(b, id, Tx(org, account, provider, connection, None, PixIn, Pending, amount, fee.value)))
  }

  function BeginOutbound(b: Books, id: Id, org: Id, account: Id, kind: Kind, provider: string,
                         connection: Option<Id>, amount: int)
    : Option<Books>
  {
    var fee := QuoteFor(b, org, kind, amount);
    if kind == PixIn || amount <= 0 || !AccountUsable(b, account, org) || fee.None? then None
    else
      var tx := Tx(org, account, provider, connection, None, kind, Pending, amount, fee.value);
      var available := Balance(b.journals, Available(account));
      if !FitsInt64(tx.Debit()) || !FitsInt64(available) || available < tx.Debit() || id in b.txs then None
      else Some(Post(Insert(b, id, tx), ReserveJournal(id, tx)))
  }

  function SettlePixIn(b: Books, id: Id): Option<Books> {
    if id !in b.txs || b.txs[id].kind != PixIn then None
    else
      var tx := b.txs[id];
      match tx.status
      case Succeeded => Some(b)
      case Failed => None
      case _ => if tx.amount - tx.fee <= 0 then None else Some(SetStatus(Post(b, SettleJournal(id, tx)), id, Succeeded))
  }

  function CompleteOutbound(b: Books, id: Id): Option<Books> {
    if id !in b.txs || !b.txs[id].Outbound() then None
    else
      match b.txs[id].status
      case Succeeded => Some(b)
      case Failed => None
      case _ => Some(SetStatus(Post(b, CompleteJournal(id, b.txs[id])), id, Succeeded))
  }

  function FailOutbound(b: Books, id: Id): Option<Books> {
    if id !in b.txs || !b.txs[id].Outbound() then None
    else
      match b.txs[id].status
      case Failed => Some(b)
      case Succeeded => None
      case _ => Some(SetStatus(Post(b, ReleaseJournal(id, b.txs[id])), id, Failed))
  }

  /** A PATCH of the status column: no guard, and no effect when the id matches no row. */
  function PatchStatus(b: Books, id: Id, status: Status): Books {
    if id in b.txs then SetStatus(b, id, status) else b
  }

  /** The two partial unique indexes over (connection, external id) and (provider, external id). */
  predicate SameIdentity(a: Tx, b: Tx) {
    && a.externalId.Some? && a.externalId == b.externalId && a.connection == b.connection
    && (a.connection.None? ==> a.provider == b.provider)
  }

  /** A PATCH of provider_external_id, refused by the unique indexes. */
  function PatchExternalId(b: Books, id: Id, externalId: string): Option<Books> {
    if id !in b.txs then Some(b)
    else
      var tx := b.txs[id].(externalId := Some(externalId));
      if exists other <- b.txs.Keys :: other != id && SameIdentity(b.txs[other], tx) then None
      else Some(b.(txs := b.txs[id := tx]))
  }

  /** The row a webhook finds by connection and external id (the first, in insertion order). */
  function FindByExternalId(txs: map<Id, Tx>, order: seq<Id>, connection: Id, externalId: string): Option<Id> {
    if order == [] then None
    else if order[0] in txs && txs[order[0]].connection == Some(connection)
        && txs[order[0]].externalId == Some(externalId)
    then Some(order[0])
    else FindByExternalId(txs, order[1..], connection, externalId)
  }

  // --- what the tables satisfy -------------------------------------------------

  /** The complete ledger history a row must have, given its status. A failed pix_in may have
      been credited: the failure patch does not look at the status it overwrites. */
  ghost predicate TrailOk(id: Id, tx: Tx, trail: seq<Journal>) {
    match (tx.Outbound(), tx.status)
    case (false, Succeeded) => trail == [SettleJournal(id, tx)]
    case (false, Failed) => trail == [] || trail == [SettleJournal(id, tx)]
    case (false, _) => trail == []
    case (true, Succeeded) => trail == [ReserveJournal(id, tx), CompleteJournal(id, tx)]
    case (true, Failed) => trail == [ReserveJournal(id, tx), ReleaseJournal(id, tx)]
    case (true, _) => trail == [ReserveJournal(id, tx)]
  }

  ghost predicate RowOk(tx: Tx) {
    && tx.amount > 0 && tx.fee >= 0
    && (if tx.Outbound() then tx.Debit() <= MAX_INT64 else tx.fee < tx.amount)
    && (tx.status == Ambiguous ==> tx.externalId.None?)
  }

  ghost predicate OrderOk(b: Books) {
    && (forall i, j :: 0 <= i < j < |b.order| ==> b.order[i] != b.order[j])
    && (forall id :: id in b.order <==> id in b.txs)
  }

  ghost predicate TrailsOk(b: Books) {
    && (forall j <- b.journals :: j.tx in b.txs)
    && (forall id <- b.txs :: TrailOk(id, b.txs[id], Trail(b.journals, id)))
  }

  ghost predicate RowsOk(txs: map<Id, Tx>) {
    forall id <- txs :: RowOk(txs[id])
  }

  ghost predicate IdentitiesUnique(txs: map<Id, Tx>) {
    forall x <- txs, y <- txs :: SameIdentity(txs[x], txs[y]) ==> x == y
  }

  ghost predicate NoOverdraft(journals: seq<Journal>) {
    forall account: Id :: Balance(journals, Available(account)) >= 0
  }

  ghost predicate PricingOk(pricing: map<(Id, Kind), Pricing.Rule>) {
    forall k <- pricing :: Pricing.Accepted(pricing[k])
  }

  ghost predicate BooksOk(b: Books) {
    && OrderOk(b)
    && TrailsOk(b)
    && RowsOk(b.txs)
    && IdentitiesUnique(b.txs)
    && NoOverdraft(b.journals)
    && PricingOk(b.pricing)
  }

  // --- appending a journal -------------------------------------------------------

  lemma PostAppends(journals: seq<Journal>, j: Journal)
    ensures forall b :: Balance(journals + [j], b) == Balance(journals, b) + EntrySum(j.entries, b)
    ensures forall id :: Trail(journals + [j], id) == Trail(journals, id) + if j.tx == id then [j] else []
  {
    assert (journals + [j])[..|journals|] == journals;
  }

  lemma PostAppendsTo(journals: seq<Journal>, j: Journal, b: Bucket, id: Id)
    ensures Balance(journals + [j], b) == Balance(journals, b) + EntrySum(j.entries, b)
    ensures Trail(journals + [j], id) == if j.tx == id then Trail(journals, id) + [j] else Trail(journals, id)
  {
    PostAppends(journals, j);
  }

  function Share(e: Entry, b: Bucket): int {
    if e.bucket == b then e.amount else 0
  }

  lemma EntrySumOfTwo(x: Entry, y: Entry, b: Bucket)
    ensures EntrySum([x, y], b) == Share(x, b) + Share(y, b)
    ensures EntryTotal([x, y]) == x.amount + y.amount
  {
    assert [x, y][1..] == [y] && [y][1..] == [];
    assert EntryTotal([y]) == y.amount && EntrySum([y], b) == Share(y, b);
  }

  lemma EntrySumOfThree(x: Entry, y: Entry, z: Entry, b: Bucket)
    ensures EntrySum([x, y, z], b) == Share(x, b) + Share(y, b) + Share(z, b)
    ensures EntryTotal([x, y, z]) == x.amount + y.amount + z.amount
  {
    assert [x, y, z][1..] == [y, z];
    EntrySumOfTwo(y, z, b);
  }

  /** What each kind of journal moves in a bucket; every one of them balances. */
  lemma JournalEffects(id: Id, tx: Tx, b: Bucket)
    requires tx.fee >= 0
    ensures EntrySum(ReserveJournal(id, tx).entries, b) ==
              if b == Available(tx.account) then -tx.Debit() else if b == Reserved(tx.account) then tx.Debit() else 0
    ensures EntrySum(SettleJournal(id, tx).entries, b) ==
              if b == Available(tx.account) then tx.amount - tx.fee
              else if b == Clearing then -tx.amount else if b == PlatformRevenue then tx.fee else 0
    ensures EntrySum(CompleteJournal(id, tx).entries, b) ==
              if b == Reserved(tx.account) then -tx.Debit()
              else if b == Clearing then tx.amount else if b == PlatformRevenue then tx.fee else 0
    ensures EntrySum(ReleaseJournal(id, tx).entries, b) ==
              if b == Reserved(tx.account) then -tx.Debit() else if b == Available(tx.account) then tx.Debit() else 0
    ensures EntryTotal(ReserveJournal(id, tx).entries) == EntryTotal(ReleaseJournal(id, tx).entries) == 0
    ensures EntryTotal(SettleJournal(id, tx).entries) == EntryTotal(CompleteJournal(id, tx).entries) == 0
  {
    var a, r := Available(tx.account), Reserved(tx.account);
    EntrySumOfTwo(Entry(a, -tx.Debit()), Entry(r, tx.Debit()), b);
    EntrySumOfTwo(Entry(r, -tx.Debit()), Entry(a, tx.Debit()), b);
    if tx.fee > 0 {
      EntrySumOfThree(Entry(a, tx.amount - tx.fee), Entry(PlatformRevenue, tx.fee), Entry(Clearing, -tx.amount), b);
      EntrySumOfThree(Entry(r, -tx.Debit()), Entry(Clearing, tx.amount), Entry(PlatformRevenue, tx.fee), b);
    } else {
      EntrySumOfTwo(Entry(a, tx.amount), Entry(Clearing, -tx.amount), b);
      EntrySumOfTwo(Entry(r, -tx.amount), Entry(Clearing, tx.amount), b);
    }
  }

  lemma NoTrail(journals: seq<Journal>, id: Id)
    requires forall j <- journals :: j.tx != id
    ensures Trail(journals, id) == []
  {
  }

  // --- every operation keeps BooksOk -----------------------------------------------

  lemma BeginPixInKeepsBooks(b: Books, id: Id, org: Id, account: Id, provider: string, connection: Option<Id>,
                             amount: int)
    requires BooksOk(b)
    ensures var r := BeginPixIn(b, id, org, account, provider, connection, amount); r.Some? ==> BooksOk(r.value)
  {
    var r := BeginPixIn(b, id, org, account, provider, connection, amount);
    if r.Some? {
      QuoteIsNotNegative(b, org, PixIn, amount);
      NoTrail(b.journals, id);
      InsertKeepsOrder(b, id, r.value.txs[id]);
    }
  }

  lemma QuoteIsNotNegative(b: Books, org: Id, kind: Kind, amount: int)
    requires BooksOk(b)
    ensures var fee := QuoteFor(b, org, kind, amount); fee.Some? ==> fee.value >= 0
  {
    if amount > 0 && (org, kind) in b.pricing {
      Pricing.QuoteIsTheSimulatedFee(b.pricing[(org, kind)], amount);
      Pricing.FeeIsWithinItsBounds(amount, b.pricing[(org, kind)]);
    }
  }

  lemma InsertKeepsOrder(b: Books, id: Id, tx: Tx)
    requires OrderOk(b) && id !in b.txs
    ensures OrderOk(Insert(b, id, tx))
  {
  }

  lemma PostKeepsOrder(b: Books, j: Journal)
    requires OrderOk(b)
    ensures OrderOk(Post(b, j))
  {
  }

  lemma InsertKeepsRows(txs: map<Id, Tx>, id: Id, tx: Tx)
    requires RowsOk(txs) && IdentitiesUnique(txs) && id !in txs && RowOk(tx) && tx.externalId.None?
    ensures RowsOk(txs[id := tx]) && IdentitiesUnique(txs[id := tx])
  {
  }

  lemma ReserveKeepsBooks(b: Books, id: Id, tx: Tx)
    requires BooksOk(b) && id !in b.txs && RowOk(tx)
    requires tx.Outbound() && tx.status == Pending && tx.externalId.None?
    requires Balance(b.journals, Available(tx.account)) >= tx.Debit()
    ensures BooksOk(Post(Insert(b, id, tx), ReserveJournal(id, tx)))
  {
    hide OrderOk, TrailsOk, RowsOk, IdentitiesUnique, NoOverdraft, PricingOk;
    var j := ReserveJournal(id, tx);
    InsertKeepsOrder(b, id, tx);
    PostKeepsOrder(Insert(b, id, tx), j);
    InsertKeepsRows(b.txs, id, tx);
    ReserveLeavesNoOverdraft(b.journals, id, tx);
    FreshTrail(b, id, tx, j);
  }

  lemma ReserveLeavesNoOverdraft(journals: seq<Journal>, id: Id, tx: Tx)
    requires NoOverdraft(journals) && tx.fee >= 0
    requires Balance(journals, Available(tx.account)) >= tx.Debit()
    ensures NoOverdraft(journals + [ReserveJournal(id, tx)])
  {
    PostAppends(journals, ReserveJournal(id, tx));
    forall account: Id
      ensures EntrySum(ReserveJournal(id, tx).entries, Available(account))
              == if account == tx.account then -tx.Debit() else 0
    {
      JournalEffects(id, tx, Available(account));
    }
  }

  lemma FreshTrail(b: Books, id: Id, tx: Tx, j: Journal)
    requires TrailsOk(b) && id !in b.txs && j.tx == id && TrailOk(id, tx, [j])
    ensures TrailsOk(Post(Insert(b, id, tx), j))
  {
    var b' := Post(Insert(b, id, tx), j);
    NoTrail(b.journals, id);
    PostAppends(b.journals, j);
    assert Trail(b'.journals, id) == [j];
    forall x <- b'.txs ensures TrailOk(x, b'.txs[x], Trail(b'.journals, x)) {
      assert x != id ==> Trail(b'.journals, x) == Trail(b.journals, x);
    }
  }

  lemma BeginOutboundKeepsBooks(b: Books, id: Id, org: Id, account: Id, kind: Kind, provider: string,
                                connection: Option<Id>, amount: int)
    requires BooksOk(b)
    ensures var r := BeginOutbound(b, id, org, account, kind, provider, connection, amount);
            r.Some? ==> BooksOk(r.value)
  {
    var fee := QuoteFor(b, org, kind, amount);
    if BeginOutbound(b, id, org, account, kind, provider, connection, amount).Some? {
      QuoteIsNotNegative(b, org, kind, amount);
      ReserveKeepsBooks(b, id, Tx(org, account, provider, connection, None, kind, Pending, amount, fee.value));
    }
  }

  /** The journals of a row depend only on its account, amount and fee. */
  lemma SameJournals(id: Id, x: Tx, y: Tx)
    requires x.account == y.account && x.amount == y.amount && x.fee == y.fee
    ensures ReserveJournal(id, x) == ReserveJournal(id, y) && ReleaseJournal(id, x) == ReleaseJournal(id, y)
    ensures SettleJournal(id, x) == SettleJournal(id, y) && CompleteJournal(id, x) == CompleteJournal(id, y)
  {
  }

  lemma RowAndTrail(b: Books, id: Id)
    requires BooksOk(b) && id in b.txs
    ensures RowOk(b.txs[id]) && TrailOk(id, b.txs[id], Trail(b.journals, id))
  {
  }

  lemma DischargeKeepsTrails(b: Books, id: Id, j: Journal, status: Status)
    requires TrailsOk(b) && id in b.txs && j.tx == id
    requires TrailOk(id, b.txs[id].(status := status), Trail(b.journals, id) + [j])
    ensures TrailsOk(SetStatus(Post(b, j), id, status))
  {
    hide TrailOk;
    var b' := SetStatus(Post(b, j), id, status);
    forall x <- b'.txs ensures TrailOk(x, b'.txs[x], Trail(b'.journals, x)) {
      PostAppendsTo(b.journals, j, Clearing, x);
      assert x != id ==> Trail(b'.journals, x) == Trail(b.journals, x);
    }
  }

  ghost predicate TakesNothing(j: Journal) {
    forall account: Id :: EntrySum(j.entries, Available(account)) >= 0
  }

  lemma DischargeLeavesNoOverdraft(journals: seq<Journal>, j: Journal)
    requires NoOverdraft(journals) && TakesNothing(j)
    ensures NoOverdraft(journals + [j])
  {
    PostAppends(journals, j);
  }

  /** Posting the right journal and moving to the status that goes with it. */
  lemma DischargeKeepsBooks(b: Books, id: Id, j: Journal, status: Status)
    requires BooksOk(b) && id in b.txs && j.tx == id && status != Ambiguous
    requires TrailOk(id, b.txs[id].(status := status), Trail(b.journals, id) + [j])
    requires TakesNothing(j)
    ensures BooksOk(SetStatus(Post(b, j), id, status))
  {
    hide OrderOk, RowsOk, TrailsOk, IdentitiesUnique, NoOverdraft, PricingOk, TakesNothing, TrailOk, Trail;
    DischargeKeepsTrails(b, id, j, status);
    DischargeLeavesNoOverdraft(b.journals, j);
    PostKeepsOrder(b, j);
    StatusKeepsOrder(Post(b, j), id, status);
    StatusKeepsIdentities(b.txs, id, status);
  }

  lemma StatusKeepsOrder(b: Books, id: Id, status: Status)
    requires OrderOk(b) && id in b.txs
    ensures OrderOk(SetStatus(b, id, status))
  {
    assert SetStatus(b, id, status).txs.Keys == b.txs.Keys;
  }

  lemma StatusKeepsIdentities(txs: map<Id, Tx>, id: Id, status: Status)
    requires IdentitiesUnique(txs) && id in txs
    ensures IdentitiesUnique(txs[id := txs[id].(status := status)])
    ensures RowsOk(txs) && status != Ambiguous ==> RowsOk(txs[id := txs[id].(status := status)])
  {
    var txs' := txs[id := txs[id].(status := status)];
    forall x <- txs', y <- txs' | SameIdentity(txs'[x], txs'[y]) ensures x == y {
      assert SameIdentity(txs[x], txs[y]);
    }
  }

  /** Settling, completing and releasing never take from an available balance. */
  lemma DischargesTakeNothing(id: Id, tx: Tx)
    requires tx.amount > 0 && tx.fee >= 0
    ensures tx.fee < tx.amount ==> TakesNothing(SettleJournal(id, tx))
    ensures TakesNothing(CompleteJournal(id, tx)) && TakesNothing(ReleaseJournal(id, tx))
  {
    forall account: Id
      ensures tx.fee < tx.amount ==> EntrySum(SettleJournal(id, tx).entries, Available(account)) >= 0
      ensures EntrySum(CompleteJournal(id, tx).entries, Available(account)) >= 0
      ensures EntrySum(ReleaseJournal(id, tx).entries, Available(account)) >= 0
    {
      JournalEffects(id, tx, Available(account));
    }
  }

  lemma SettleKeepsBooks(b: Books, id: Id)
    requires BooksOk(b)
    ensures SettlePixIn(b, id).Some? ==> BooksOk(SettlePixIn(b, id).value)
  {
    var r := SettlePixIn(b, id);
    if r.Some? && r.value != b {
      var tx := b.txs[id];
      RowAndTrail(b, id);
      hide BooksOk, Trail, TakesNothing;
      DischargesTakeNothing(id, tx);
      SameJournals(id, tx, tx.(status := Succeeded));
      DischargeKeepsBooks(b, id, SettleJournal(id, tx), Succeeded);
    }
  }

  lemma CompleteKeepsBooks(b: Books, id: Id)
    requires BooksOk(b)
    ensures CompleteOutbound(b, id).Some? ==> BooksOk(CompleteOutbound(b, id).value)
  {
    var r := CompleteOutbound(b, id);
    if r.Some? && r.value != b {
      var tx := b.txs[id];
      RowAndTrail(b, id);
      hide BooksOk, Trail, TakesNothing;
      DischargesTakeNothing(id, tx);
      SameJournals(id, tx, tx.(status := Succeeded));
      assert Trail(b.journals, id) + [CompleteJournal(id, tx)] == [ReserveJournal(id, tx), CompleteJournal(id, tx)];
      DischargeKeepsBooks(b, id, CompleteJournal(id, tx), Succeeded);
    }
  }

  lemma FailKeepsBooks(b: Books, id: Id)
    requires BooksOk(b)
    ensures FailOutbound(b, id).Some? ==> BooksOk(FailOutbound(b, id).value)
  {
    var r := FailOutbound(b, id);
    if r.Some? && r.value != b {
      var tx := b.txs[id];
      RowAndTrail(b, id);
      hide BooksOk, Trail, TakesNothing;
      DischargesTakeNothing(id, tx);
      SameJournals(id, tx, tx.(status := Failed));
      assert Trail(b.journals, id) + [ReleaseJournal(id, tx)] == [ReserveJournal(id, tx), ReleaseJournal(id, tx)];
      DischargeKeepsBooks(b, id, ReleaseJournal(id, tx), Failed);
    }
  }

  /** When an unguarded status patch agrees with the ledger. `credited` tells whether the
      transaction has any journal, which for a pix_in is its credit. */
  predicate PatchIsSafe(tx: Tx, credited: bool, status: Status) {
    match status
    case Pending => if tx.Outbound() then !tx.Terminal() else !credited
    case Succeeded => if tx.Outbound() then tx.status == Succeeded else credited
    case Failed => !tx.Outbound() || tx.status == Failed
    case Ambiguous => tx.externalId.None? && if tx.Outbound() then !tx.Terminal() else !credited
  }

  lemma PatchedTrail(id: Id, tx: Tx, trail: seq<Journal>, status: Status)
    requires TrailOk(id, tx, trail)
    ensures TrailOk(id, tx.(status := status), trail) && (status == Ambiguous ==> tx.externalId.None?)
            <==> PatchIsSafe(tx, trail != [], status)
  {
    SameJournals(id, tx, tx.(status := status));
    assert CompleteJournal(id, tx).kind != ReleaseJournal(id, tx).kind;
    if |trail| == 2 { assert trail[1].kind == CompletedOutbound || trail[1].kind == ReleasedOutbound; }
  }

  lemma SafePatchKeepsBooks(b: Books, id: Id, status: Status)
    requires BooksOk(b) && id in b.txs && PatchIsSafe(b.txs[id], Trail(b.journals, id) != [], status)
    ensures BooksOk(PatchStatus(b, id, status))
  {
    hide TrailOk, Trail, PatchIsSafe, NoOverdraft;
    PatchedTrail(id, b.txs[id], Trail(b.journals, id), status);
    StatusKeepsIdentities(b.txs, id, status);
    assert PatchStatus(b, id, status).txs.Keys == b.txs.Keys;
  }

  lemma UnsafePatchBreaksBooks(b: Books, id: Id, status: Status)
    requires BooksOk(b) && id in b.txs && BooksOk(PatchStatus(b, id, status))
    ensures PatchIsSafe(b.txs[id], Trail(b.journals, id) != [], status)
  {
    hide TrailOk, Trail, PatchIsSafe, NoOverdraft, OrderOk, IdentitiesUnique;
    PatchedTrail(id, b.txs[id], Trail(b.journals, id), status);
    var b' := PatchStatus(b, id, status);
    assert id in b'.txs && b'.txs[id] == b.txs[id].(status := status) && b'.journals == b.journals;
    assert TrailOk(id, b'.txs[id], Trail(b'.journals, id)) && RowOk(b'.txs[id]);
  }

  /** A status patch keeps the books consistent exactly when it agrees with the ledger. */
  lemma PatchStatusKeepsBooks(b: Books, id: Id, status: Status)
    requires BooksOk(b)
    ensures BooksOk(PatchStatus(b, id, status)) <==>
              (id in b.txs ==> PatchIsSafe(b.txs[id], Trail(b.journals, id) != [], status))
  {
    hide BooksOk, PatchIsSafe, Trail;
    if id in b.txs {
      if BooksOk(PatchStatus(b, id, status)) { UnsafePatchBreaksBooks(b, id, status); }
      if PatchIsSafe(b.txs[id], Trail(b.journals, id) != [], status) { SafePatchKeepsBooks(b, id, status); }
    }
  }

  lemma PendingPixInHasNoJournal(b: Books, id: Id)
    requires BooksOk(b) && id in b.txs && !b.txs[id].Outbound() && !b.txs[id].Terminal()
    ensures Trail(b.journals, id) == []
  {
    hide Trail;
    assert TrailOk(id, b.txs[id], Trail(b.journals, id));
  }

  lemma NewIdentityIsUnique(txs: map<Id, Tx>, id: Id, tx: Tx)
    requires IdentitiesUnique(txs) && forall y <- txs :: y != id ==> !SameIdentity(tx, txs[y])
    ensures IdentitiesUnique(txs[id := tx])
  {
    var txs' := txs[id := tx];
    forall x <- txs', y <- txs' | SameIdentity(txs'[x], txs'[y]) ensures x == y {
      assert SameIdentity(txs'[y], txs'[x]);
    }
  }

  lemma PatchExternalIdKeepsBooks(b: Books, id: Id, externalId: string)
    requires BooksOk(b) && (id in b.txs ==> b.txs[id].status != Ambiguous)
    ensures var r := PatchExternalId(b, id, externalId); r.Some? ==> BooksOk(r.value)
  {
    hide IdentitiesUnique, NoOverdraft, PricingOk, Trail;
    var r := PatchExternalId(b, id, externalId);
    if id in b.txs && r.Some? {
      var tx := r.value.txs[id];
      SameJournals(id, b.txs[id], tx);
      NewIdentityIsUnique(b.txs, id, tx);
      assert r.value.txs.Keys == b.txs.Keys;
    }
  }
}
