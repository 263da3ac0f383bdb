/** What holds in every reachable state of the payment handlers: for every history of requests,
    deliveries, reconciliations, crashes and configuration changes, in any interleaving. */
module GatewayTheorems {
  import opened Wrappers
  import opened Ledger
  import opened LedgerLaws
  import opened Gateway
  import opened GatewaySafety
  import opened GatewayCredits
  import opened GatewayHistories
  import opened GatewayReach
  import Pricing

  lemma ReachedInv(history: seq<Action>)
    ensures Inv(Reached(history))
  {
    InitialInv();
    ExecKeepsInv(INITIAL, history);
  }

  // --- money ------------------------------------------------------------------------

  /** An account's reserved balance is the sum of amount plus fee over its outbound payments that
      are begun and not completed or failed; an ambiguous one stays in the sum. */
  lemma ReservedMatchesOpenPayments(history: seq<Action>, account: Id)
    ensures var b := Reached(history).store.books;
            && (forall id <- b.order :: id in b.txs)
            && Balance(b.journals, Reserved(account)) == OpenDebits(b.txs, b.order, account)
  {
    ReachedInv(history);
    ReservedIsOpenDebits(Reached(history).store.books, account);
  }

  /** No interleaving overdraws an account. */
  lemma AvailableIsNeverNegative(history: seq<Action>, account: Id)
    ensures Balance(Reached(history).store.books.journals, Available(account)) >= 0
  {
    ReachedInv(history);
  }

  lemma JournalsSumToZero(history: seq<Action>, j: Journal)
    requires j in Reached(history).store.books.journals
    ensures EntryTotal(j.entries) == 0
  {
    ReachedInv(history);
    EveryJournalBalances(Reached(history).store.books, j);
  }

  /** One reservation, and one discharge exactly when the payment is terminal: never completed
      twice, released twice, or both. */
  lemma ReservationDischargedOnce(history: seq<Action>, id: Id)
    requires var txs := Reached(history).store.books.txs; id in txs && txs[id].Outbound()
    ensures var b := Reached(history).store.books; var posted := kind => Posted(b.journals, id, kind);
            && posted(ReserveOutbound) == 1
            && posted(CompletedOutbound) == (if b.txs[id].status == Succeeded then 1 else 0)
            && posted(ReleasedOutbound) == (if b.txs[id].status == Failed then 1 else 0)
  {
    ReachedInv(history);
    OutboundDischargedOnce(Reached(history).store.books, id);
  }

  /** A pix_in is credited at most once, and then with its amount minus its fee. */
  lemma CreditedOnceForTheNet(history: seq<Action>, id: Id)
    requires var txs := Reached(history).store.books.txs; id in txs && txs[id].kind == PixIn
    ensures var b := Reached(history).store.books; var tx, credits := b.txs[id], Posted(b.journals, id, SettledPixIn);
            && credits <= 1 && (tx.status == Succeeded ==> credits == 1) && (!tx.Terminal() ==> credits == 0)
            && Balance(Trail(b.journals, id), Available(tx.account)) == credits * (tx.amount - tx.fee)
            && tx.amount - tx.fee > 0
  {
    ReachedInv(history);
    var b := Reached(history).store.books;
    var tx, trail := b.txs[id], Trail(b.journals, id);
    PixInCreditedOnce(b, id);
    PostedInTrail(b.journals, id, SettledPixIn);
    TrailCounts(id, tx, trail, SettledPixIn);
    TrailBalanceIsPosition(id, tx, trail, Available(tx.account));
  }

  /** When the provider is called for an outbound payment, its funds are reserved and nothing
      has been discharged. */
  lemma FundsReservedBeforeTheProviderIsCalled(history: seq<Action>, rid: Id)
    requires var s := Reached(history);
             rid in s.runs && s.runs[rid].Create? && s.runs[rid].cpc == CallProvider && s.runs[rid].req.kind != PixIn
    ensures var s := Reached(history); var req := s.runs[rid].req;
            && req.id in s.store.books.txs && s.store.books.txs[req.id].amount == req.amount
            && Trail(s.store.books.journals, req.id) == [ReserveJournal(req.id, s.store.books.txs[req.id])]
  {
    ReachedInv(history);
    RunIsOk(Reached(history).store, Reached(history).runs, rid);
  }

  // --- what never changes ----------------------------------------------------------------

  /** Amount, fee, account and kind are frozen at begin; an external id is written once; posted
      journals stay; and nothing overwrites a succeeded or failed outbound payment. */
  lemma HistoryIsNotRewritten(history: seq<Action>, more: seq<Action>, id: Id)
    requires id in Reached(history).store.books.txs
    ensures var b, b' := Reached(history).store.books, Exec(Reached(history), more).store.books;
            && b.journals <= b'.journals
            && id in b'.txs
            && b'.txs[id] == b.txs[id].(status := b'.txs[id].status, externalId := b'.txs[id].externalId)
            && (b.txs[id].externalId.Some? ==> b'.txs[id].externalId == b.txs[id].externalId)
            && (b.txs[id].Outbound() && b.txs[id].Terminal() ==> b'.txs[id] == b.txs[id])
  {
    ReachedInv(history);
    ExecKeepsInv(Reached(history), more);
  }

  /** An ambiguous transaction has no external id, so no webhook finds it and no reconciliation
      asks about it. */
  lemma AmbiguousHasNoExternalId(history: seq<Action>, id: Id, connection: Id, externalId: string)
    requires var txs := Reached(history).store.books.txs; id in txs && txs[id].status == Ambiguous
    ensures var b := Reached(history).store.books;
            && b.txs[id].externalId.None?
            && FindByExternalId(b.txs, b.order, connection, externalId) != Some(id)
  {
    ReachedInv(history);
    var b := Reached(history).store.books;
    FoundIsRecorded(b.txs, b.order, connection, externalId);
  }

  /** The handlers promise that an ambiguous payment is reconciled later; none of these handlers
      ever changes its row again, and an outbound one keeps its funds reserved. */
  lemma AmbiguousIsForever(history: seq<Action>, more: seq<Action>, id: Id)
    requires var txs := Reached(history).store.books.txs; id in txs && txs[id].status == Ambiguous
    ensures var txs' := Exec(Reached(history), more).store.books.txs;
            id in txs' && txs'[id] == Reached(history).store.books.txs[id]
  {
    ReachedInv(history);
    var s := Reached(history);
    AmbiguousHasNoExternalId(history, id, 0, "");
    forall r <- s.runs ensures !StillCreating(s.store.books, s.runs[r], id) { RunIsOk(s.store, s.runs, r); }
    OutOfReachForever(s, more, id);
  }

  /** Such rows are reached: a charge whose provider call ends in an unknown error. */
  lemma AmbiguousIsReached() returns (history: seq<Action>, id: Id)
    ensures var txs := Reached(history).store.books.txs; id in txs && txs[id].status == Ambiguous
  {
    id := 1;
    history := BeginCharge(Request(7, PixIn, "key", "fp", 3, "pixhub", Some(5), 100, id));
    history := Play(history, Advance(10, Choice(Delivered, UnknownError)));
    history := Play(history, Advance(10, Choice(Delivered, UnknownError)));
  }

  /** No reconciliation resets an ambiguous row to pending, or answers that it is still ambiguous. */
  lemma ReconciliationNeverMeetsAmbiguity(history: seq<Action>, rid: Id)
    requires rid in Reached(history).runs && Reached(history).runs[rid].Reconcile?
    ensures var pc := Reached(history).runs[rid].rpc;
            && !pc.ResetPending?
            && pc != ReconcileDone(Unresolved)
            && ((pc.Ask? || pc.StorePayload? || pc.ApplyAnswer?) ==> pc.seen.status != Ambiguous)
  {
    ReachedInv(history);
    RunIsOk(Reached(history).store, Reached(history).runs, rid);
  }

  // --- idempotency ---------------------------------------------------------------------------

  /** For one organization, operation and Idempotency-Key, at most one transaction is begun. */
  lemma OneTransactionPerKey(history: seq<Action>, i: nat, j: nat)
    requires i < |Reached(history).log| && j < |Reached(history).log|
    requires var log := Reached(history).log; log[i].Began? && log[j].Began? && log[i].key == log[j].key
    ensures i == j
  {
    ReachedInv(history);
    SameKeySameRun(Reached(history), i, j);
  }

  /** And the provider is asked at most once to create it. */
  lemma OneProviderCallPerKey(history: seq<Action>, i: nat, j: nat)
    requires i < |Reached(history).log| && j < |Reached(history).log|
    requires var log := Reached(history).log; log[i].Called? && log[j].Called? && log[i].key == log[j].key
    ensures i == j
  {
    ReachedInv(history);
    SameKeySameRun(Reached(history), i, j);
  }

  lemma SameKeySameRun(s: State, i: nat, j: nat)
    requires Inv(s) && i < |s.log| && j < |s.log| && !s.log[i].Answered? && !s.log[j].Answered?
    requires s.log[i].key == s.log[j].key
    ensures s.log[i].run == s.log[j].run && s.log[i].tx == s.log[j].tx
    ensures SameAct(s.log[i], s.log[j]) ==> i == j
  {
    hide BooksOk, KeysOk, RunsOk, HoldersDiffer;
    assert ObservationOk(s, s.log[i]) && ObservationOk(s, s.log[j]);
    if i != j { assert !SameAct(s.log[i], s.log[j]) && !SameAct(s.log[j], s.log[i]); }
  }

  /** Every replay of a key gives the same response, to callers with the same fingerprint. */
  lemma ReplaysAgree(history: seq<Action>, i: nat, j: nat)
    requires i < |Reached(history).log| && j < |Reached(history).log|
    requires var log := Reached(history).log; log[i].Answered? && log[j].Answered? && log[i].key == log[j].key
    ensures var log := Reached(history).log;
            log[i].response == log[j].response && log[i].fingerprint == log[j].fingerprint
  {
    ReachedInv(history);
    var s := Reached(history);
    assert ObservationOk(s, s.log[i]) && ObservationOk(s, s.log[j]);
  }

  /** Between begin and the stored response, and once a replayable response is stored, the
      transaction's begin is on record. */
  predicate PastBegin(run: Run) {
    run.Create? && !run.cpc.Claim? && !run.cpc.Begin? && !run.cpc.CreateDone?
  }

  ghost predicate BegunFor(log: seq<Observation>, key: Key) {
    exists i :: 0 <= i < |log| && log[i].Began? && log[i].key == key
  }

  ghost predicate BeginsRecorded(s: State) {
    && (forall r <- s.runs :: PastBegin(s.runs[r]) ==> BegunFor(s.log, s.runs[r].req.Scope()))
    && (forall k <- s.store.keys :: s.store.keys[k].status != Processing ==> BegunFor(s.log, k))
  }

  lemma BegunForKeeps(log: seq<Observation>, more: seq<Observation>, key: Key)
    requires BegunFor(log, key)
    ensures BegunFor(log + more, key)
  {
    var i :| 0 <= i < |log| && log[i].Began? && log[i].key == key;
    assert (log + more)[i] == log[i];
  }

  lemma StepRecordsBegin(s: Store, rid: Id, run: Run, c: Choice)
    ensures var e := Step(s, rid, run, c);
            && (PastBegin(e.run) && !PastBegin(run) ==> BegunFor(e.seen, run.req.Scope()) && e.run.req == run.req)
            && (PastBegin(e.run) && PastBegin(run) ==> e.run.req == run.req)
            && (forall k <- e.store.keys :: e.store.keys[k].status != Processing ==>
                  (k in s.keys && s.keys[k].status != Processing) || (PastBegin(run) && k == run.req.Scope()))
  {
    hide BeginFor, ApplyStatus, PatchExternalId, PatchStatus;
    if run.Create? && run.cpc.Begin? {
      var e := Step(s, rid, run, c);
      if PastBegin(e.run) { assert e.seen[0].Began? && e.seen[0].key == run.req.Scope(); }
    }
  }

  lemma NextRecordsBegin(s: State, a: Action)
    requires BeginsRecorded(s)
    ensures BeginsRecorded(Next(s, a))
  {
    if a.Advance? && a.run in s.runs {
      var run, s' := s.runs[a.run], Next(s, a);
      var seen := Step(s.store, a.run, run, a.choice).seen;
      StepRecordsBegin(s.store, a.run, run, a.choice);
      hide Step, BegunFor;
      forall k | BegunFor(s.log, k) ensures BegunFor(s'.log, k) { BegunForKeeps(s.log, seen, k); }
      if PastBegin(s'.runs[a.run]) && !PastBegin(run) { BegunForLater(s.log, seen, run.req.Scope()); }
    }
  }

  lemma BegunForLater(log: seq<Observation>, more: seq<Observation>, key: Key)
    requires BegunFor(more, key)
    ensures BegunFor(log + more, key)
  {
    var i :| 0 <= i < |more| && more[i].Began? && more[i].key == key;
    assert (log + more)[|log| + i] == more[i];
  }

  lemma {:induction false} ExecRecordsBegin(s: State, history: seq<Action>)
    requires BeginsRecorded(s)
    ensures BeginsRecorded(Exec(s, history))
    decreases |history|
  {
    if history != [] {
      NextRecordsBegin(s, history[0]);
      ExecRecordsBegin(Next(s, history[0]), history[1..]);
    }
  }

  /** Every replay has its transaction: it was begun under the same key by a run with the same
      input, and the stored response shows that transaction. */
  lemma ReplayShowsTheBegunTransaction(history: seq<Action>, j: nat) returns (i: nat)
    requires j < |Reached(history).log| && Reached(history).log[j].Answered?
    ensures var s := Reached(history);
            && i < |s.log| && s.log[i].Began? && s.log[i].key == s.log[j].key
            && var begun, answer := s.log[i], s.log[j];
               && begun.run in s.runs && s.runs[begun.run].Create?
               && answer.fingerprint == s.runs[begun.run].req.fingerprint
               && answer.response.Some?
               && (answer.response.value.Row? ==> answer.response.value.id == begun.tx)
               && answer.key in s.store.keys
               && (s.store.keys[answer.key].status == KeySucceeded ==> answer.response.value.Row?)
  {
    ReachedInv(history);
    ExecRecordsBegin(INITIAL, history);
    var s := Reached(history);
    assert ObservationOk(s, s.log[j]);
    assert BegunFor(s.log, s.log[j].key);
    i :| 0 <= i < |s.log| && s.log[i].Began? && s.log[i].key == s.log[j].key;
    assert ObservationOk(s, s.log[i]);
    RunIsOk(s.store, s.runs, s.log[i].run);
    assert KeyRowOk(s.log[j].key, s.store.keys[s.log[j].key]);
  }

  // --- webhooks -----------------------------------------------------------------------------

  /** The evidence row exists before a delivery changes anything else, and a delivery for a
      payment that is already terminal adds no journal. */
  lemma EvidenceComesFirst(history: seq<Action>, rid: Id, c: Choice)
    requires rid in Reached(history).runs && Reached(history).runs[rid].Webhook?
    ensures var s := Reached(history); var s', run := Next(s, Advance(rid, c)), s.runs[rid];
            && (s'.store.books != s.store.books ==>
                EvidenceKey(run.event.connection, run.event.eventId) in s.store.evidence)
            && (run.wpc.ApplyEvent? && run.wpc.tx in s.store.books.txs && s.store.books.txs[run.wpc.tx].Terminal() ==>
                  s'.store.books.journals == s.store.books.journals)
  {
    ReachedInv(history);
    hide BooksOk, LogOk, KeysOk, OwnersDiffer, HoldersDiffer;
    RunIsOk(Reached(history).store, Reached(history).runs, rid);
  }

  /** A delivery that has not got past the evidence of an already processed event. */
  ghost predicate Inert(s: State, rid: Id) {
    && rid in s.runs && s.runs[rid].Webhook?
    && (s.runs[rid].wpc.Persist? || s.runs[rid].wpc.ReadEvidence? || s.runs[rid].wpc.WebhookDone?)
    && var e := EvidenceKey(s.runs[rid].event.connection, s.runs[rid].event.eventId);
       e in s.store.evidence && s.store.evidence[e]
  }

  lemma InertStep(s: State, a: Action, rid: Id)
    requires Inv(s) && Inert(s, rid)
    ensures Inert(Next(s, a), rid)
    ensures a.Advance? && a.run == rid ==> Next(s, a).store == s.store
  {
    hide BooksOk, LogOk, KeysOk, RunsOk, OwnersDiffer, HoldersDiffer, BooksEvolve;
    NextKeepsInv(s, a);
  }

  /** A delivery that starts after processed_at is set changes nothing, however it is interleaved. */
  lemma {:induction false} ProcessedDeliveryChangesNothing(s: State, more: seq<Action>, rid: Id, c: Choice)
    requires Inv(s) && Inert(s, rid)
    ensures var s' := Exec(s, more); Inert(s', rid) && Next(s', Advance(rid, c)).store == s'.store
    decreases |more|
  {
    hide Inv, Inert;
    if more == [] {
      InertStep(s, Advance(rid, c), rid);
    } else {
      NextKeepsInv(s, more[0]);
      InertStep(s, more[0], rid);
      ProcessedDeliveryChangesNothing(Next(s, more[0]), more[1..], rid, c);
    }
  }

  lemma DeliveryAfterProcessingChangesNothing(history: seq<Action>, rid: Id, event: Event, more: seq<Action>, c: Choice)
    requires rid !in Reached(history).runs
    requires var e := EvidenceKey(event.connection, event.eventId);
             e in Reached(history).store.evidence && Reached(history).store.evidence[e]
    ensures var s := Exec(Next(Reached(history), StartWebhook(rid, event)), more);
            Next(s, Advance(rid, c)).store == s.store
  {
    ReachedInv(history);
    NextKeepsInv(Reached(history), StartWebhook(rid, event));
    ProcessedDeliveryChangesNothing(Next(Reached(history), StartWebhook(rid, event)), more, rid, c);
  }

  // --- the failure patch of pix_in ---------------------------------------------------------------

  lemma {:induction false} AgreementOverARun(s: State, more: seq<Action>, id: Id)
    requires Inv(s) && (id in s.store.books.txs ==> s.store.books.txs[id].kind == PixIn)
    requires var txs := Exec(s, more).store.books.txs; id in txs && txs[id].kind == PixIn
    ensures CreditAgrees(Exec(s, more).store.books, id) <==>
              CreditAgrees(s.store.books, id) && !MeetsLateRefusal(s, more, id)
    decreases |more|
  {
    if more != [] {
      var s' := Next(s, more[0]);
      NextKeepsInv(s, more[0]);
      ExecKeepsInv(s', more[1..]);
      hide Inv, CreditAgrees, LateRefusal;
      if id in s'.store.books.txs {
        assert Exec(s', more[1..]).store.books.txs[id].kind == s'.store.books.txs[id].kind;
      }
      AgreementStep(s, more[0], id);
      AgreementOverARun(s', more[1..], id);
    }
  }

  /** Over every history, a pix_in's row and its ledger entries agree on whether it was credited if
      and only if no step took a refused status to the row while it was succeeded. */
  lemma FailurePatchAgreesExactlyBeforeSuccess(history: seq<Action>, id: Id)
    requires var txs := Reached(history).store.books.txs; id in txs && txs[id].kind == PixIn
    ensures var b := Reached(history).store.books;
            (b.txs[id].status == Succeeded <==> Posted(b.journals, id, SettledPixIn) == 1)
            <==> !MeetsLateRefusal(INITIAL, history, id)
  {
    InitialInv();
    AgreementOverARun(INITIAL, history, id);
  }

  predicate MeetsRefusal(s: State, history: seq<Action>, id: Id)
    decreases |history|
  {
    history != [] && (DeliversRefusal(s, history[0], id) || MeetsRefusal(Next(s, history[0]), history[1..], id))
  }

  lemma {:induction false} TerminalOverARun(s: State, more: seq<Action>, id: Id)
    requires Inv(s) && id in s.store.books.txs && s.store.books.txs[id].kind == PixIn
             && s.store.books.txs[id].Terminal()
    ensures var tx, txs' := s.store.books.txs[id], Exec(s, more).store.books.txs;
            id in txs' && txs'[id].status == if MeetsRefusal(s, more, id) then Failed else tx.status
    ensures Credits(Exec(s, more).store.books, id) == Credits(s.store.books, id)
    decreases |more|
  {
    if more != [] {
      hide Credits;
      NextKeepsInv(s, more[0]);
      StepMoves(s, more[0], id);
      hide Inv;
      TerminalOverARun(Next(s, more[0]), more[1..], id);
    }
  }

  /** A terminal pix_in keeps its credit for ever. A failed one stays failed; a succeeded one stays
      succeeded exactly while no refusal reaches it, and can only become failed. */
  lemma TerminalPixInOnlyFails(history: seq<Action>, more: seq<Action>, id: Id)
    requires var txs := Reached(history).store.books.txs; id in txs && txs[id].kind == PixIn && txs[id].Terminal()
    ensures var s := Reached(history); var b, b' := s.store.books, Exec(s, more).store.books;
            && id in b'.txs
            && b'.txs[id].status == (if MeetsRefusal(s, more, id) then Failed else b.txs[id].status)
            && Posted(b'.journals, id, SettledPixIn) == Posted(b.journals, id, SettledPixIn)
  {
    ReachedInv(history);
    TerminalOverARun(Reached(history), more, id);
  }

  /** Such a history exists: a charge is paid by one webhook event, then a second event reports
      it failed. The row ends failed, and the credit stays in the ledger. */
  lemma LateFailureLeavesTheCredit() returns (history: seq<Action>, id: Id)
    ensures var b := Reached(history).store.books;
            id in b.txs && b.txs[id].kind == PixIn && b.txs[id].status == Failed
            && Posted(b.journals, id, SettledPixIn) == 1
  {
    id := 1;
    history := OpenCharge(Request(7, PixIn, "key", "fp", 3, "pixhub", Some(5), 100, id));
    var open := Reached(history).store.books.txs[id];
    history := Deliver(history, 20, Event(5, "e1", "ext", None, Paid, 0), id);
    assert Reached(history).store.books.journals == [SettleJournal(id, open)];
    assert Reached(history).store.books.txs == map[id := open.(status := Succeeded)];
    history := Deliver(history, 21, Event(5, "e2", "ext", None, Refused, 0), id);
    PostedOfTwo(SettleJournal(id, open), SettleJournal(id, open), id, SettledPixIn);
  }
}
