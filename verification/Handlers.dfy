/** The database as an object whose methods are the SQL functions, and the payment handlers as
    the straight-line code they are. Each SQL method is proved to do what its function in Ledger
    or Gateway says; each handler is proved to do what its state machine does when it is advanced
    alone, for every script of failures and provider answers. */
module Handlers {
  import opened Wrappers
  import Ledger
  import opened Gateway
  import Pricing

  type Id = Ledger.Id

  class Database {
    var accounts: map<Id, Ledger.Account>
    var pricing: map<(Id, Ledger.Kind), Pricing.Rule>
    var txs: map<Id, Ledger.Tx>
    var order: seq<Id>
    var journals: seq<Ledger.Journal>
    var keys: map<Key, KeyRow>
    var evidence: map<EvidenceKey, bool>

    function Books(): Ledger.Books
      reads this
    {
      Ledger.Books(accounts, pricing, txs, order, journals)
    }

    function Tables(): Store
      reads this
    {
      Store(Books(), keys, evidence)
    }

    method InsertTransaction(id: Id, tx: Ledger.Tx)
      modifies this`txs, this`order
      ensures Books() == Ledger.Insert(old(Books()), id, tx)
    {
      txs := txs[id := tx];
      order := order + [id];
    }

    method InsertJournal(id: Id, kind: Ledger.JournalKind, entries: seq<Ledger.Entry>)
      modifies this`journals
      ensures Books() == Ledger.Post(old(Books()), Ledger.Journal(id, kind, entries))
    {
      journals := journals + [Ledger.Journal(id, kind, entries)];
    }

    method UpdateStatus(id: Id, status: Ledger.Status)
      modifies this`txs
      ensures Books() == Ledger.PatchStatus(old(Books()), id, status)
    {
      if id in txs {
        txs := txs[id := txs[id].(status := status)];
      }
    }

    method BeginPixIn(id: Id, org: Id, account: Id, provider: string, connection: Option<Id>, amount: int)
      returns (done: bool)
      modifies this`txs, this`order
      ensures var r := Ledger.BeginPixIn(old(Books()), id, org, account, provider, connection, amount);
              done == r.Some? && Books() == if done then r.value else old(Books())
    {
      if amount <= 0 { return false; }
      if account !in accounts || accounts[account].org != org || !accounts[account].active { return false; }
      if (org, Ledger.PixIn) !in pricing { return false; }
      var fee := Pricing.Quote(pricing[(org, Ledger.PixIn)], amount);
      if fee.None? || fee.value >= amount { return false; }
      if id in txs { return false; }
      var tx := Ledger.Tx(org, account, provider, connection, None, Ledger.PixIn, Ledger.Pending, amount, fee.value);
      InsertTransaction(id, tx);
      return true;
    }

    method BeginOutbound(id: Id, org: Id, account: Id, kind: Ledger.Kind, provider: string, connection: Option<Id>,
                         amount: int)
      returns (done: bool)
      modifies this`txs, this`order, this`journals
      ensures var r := Ledger.BeginOutbound(old(Books()), id, org, account, kind, provider, connection, amount);
              done == r.Some? && Books() == if done then r.value else old(Books())
    {
      if kind == Ledger.PixIn || amount <= 0 { return false; }
      if account !in accounts || accounts[account].org != org || !accounts[account].active { return false; }
      if (org, kind) !in pricing { return false; }
      var fee := Pricing.Quote(pricing[(org, kind)], amount);
      if fee.None? || !FitsInt64(amount + fee.value) { return false; }
      var debit := amount + fee.value;
      var available := Ledger.Balance(journals, Ledger.Available(account));
      if !FitsInt64(available) || available < debit { return false; }
      if id in txs { return false; }
      var tx := Ledger.Tx(org, account, provider, connection, None, kind, Ledger.Pending, amount, fee.value);
      InsertTransaction(id, tx);
      InsertJournal(id, Ledger.ReserveOutbound,
                    [Ledger.Entry(Ledger.Available(account), -debit), Ledger.Entry(Ledger.Reserved(account), debit)]);
      return true;
    }

    method SettlePixIn(id: Id) returns (done: bool)
      modifies this`txs, this`journals
      ensures var r := Ledger.SettlePixIn(old(Books()), id);
              done == r.Some? && Books() == if done then r.value else old(Books())
    {
      if id !in txs || txs[id].kind != Ledger.PixIn { return false; }
      var t := txs[id];
      if t.status == Ledger.Succeeded { return true; }
      if t.status == Ledger.Failed { return false; }
      var net := t.amount - t.fee;
      if net <= 0 { return false; }
      if t.fee > 0 {
        InsertJournal(id, Ledger.SettledPixIn,
                      [Ledger.Entry(Ledger.Available(t.account), net), Ledger.Entry(Ledger.PlatformRevenue, t.fee),
                       Ledger.Entry(Ledger.Clearing, -t.amount)]);
      } else {
        InsertJournal(id, Ledger.SettledPixIn,
                      [Ledger.Entry(Ledger.Available(t.account), t.amount), Ledger.Entry(Ledger.Clearing, -t.amount)]);
      }
      UpdateStatus(id, Ledger.Succeeded);
      return true;
    }

    method CompleteOutbound(id: Id) returns (done: bool)
      modifies this`txs, this`journals
      ensures var r := Ledger.CompleteOutbound(old(Books()), id);
              done == r.Some? && Books() == if done then r.value else old(Books())
    {
      if id !in txs || txs[id].kind == Ledger.PixIn { return false; }
      var t := txs[id];
      if t.status == Ledger.Succeeded { return true; }
      if t.status == Ledger.Failed { return false; }
      if t.fee > 0 {
        InsertJournal(id, Ledger.CompletedOutbound,
                      [Ledger.Entry(Ledger.Reserved(t.account), -(t.amount + t.fee)),
                       Ledger.Entry(Ledger.Clearing, t.amount),
                       Ledger.Entry(Ledger.PlatformRevenue, t.fee)]);
      } else {
        InsertJournal(id, Ledger.CompletedOutbound,
                      [Ledger.Entry(Ledger.Reserved(t.account), -t.amount), Ledger.Entry(Ledger.Clearing, t.amount)]);
      }
      UpdateStatus(id, Ledger.Succeeded);
      return true;
    }

    method FailOutbound(id: Id) returns (done: bool)
      modifies this`txs, this`journals
      ensures var r := Ledger.FailOutbound(old(Books()), id);
              done == r.Some? && Books() == if done then r.value else old(Books())
    {
      if id !in txs || txs[id].kind == Ledger.PixIn { return false; }
      var t := txs[id];
      if t.status == Ledger.Failed { return true; }
      if t.status == Ledger.Succeeded { return false; }
      var debit := t.amount + t.fee;
      InsertJournal(id, Ledger.ReleasedOutbound,
                    [Ledger.Entry(Ledger.Reserved(t.account), -debit),
                     Ledger.Entry(Ledger.Available(t.account), debit)]);
      UpdateStatus(id, Ledger.Failed);
      return true;
    }

    method PatchExternalId(id: Id, externalId: string) returns (done: bool)
      modifies this`txs
      ensures var r := Ledger.PatchExternalId(old(Books()), id, externalId);
              done == r.Some? && Books() == if done then r.value else old(Books())
    {
      if id in txs {
        var row := txs[id].(externalId := Some(externalId));
        if exists other <- txs.Keys :: other != id && Ledger.SameIdentity(txs[other], row) { return false; }
        txs := txs[id := row];
      }
      return true;
    }

    method ClaimIdempotency(key: Key, fingerprint: string, resource: Id) returns (claim: ClaimResult)
      modifies this`keys
      ensures (Tables(), claim) == ClaimKey(old(Tables()), key, fingerprint, resource)
    {
      var inserted := key !in keys;
      if inserted {
        keys := keys[key := KeyRow(fingerprint, resource, Processing, None)];
      }
      var row := keys[key];
      if row.fingerprint != fingerprint { return Conflict; }
      if inserted { return Acquired; }
      if row.status == KeySucceeded || row.status == FailedFinal { return Replay(row.response); }
      return Busy;
    }

    method FinishIdempotency(key: Key, status: KeyStatus, response: Snapshot)
      modifies this`keys
      ensures Tables() == FinishKey(old(Tables()), key, status, response)
    {
      if key in keys {
        keys := keys[key := keys[key].(status := status, response := Some(response))];
      }
    }
  }

  /** applyProviderStatus: one call to the database, delivered or not. */
  method ApplyProviderStatus(db: Database, id: Id, kind: Ledger.Kind, status: ProviderStatus, d: Delivery)
    returns (ok: bool)
    modifies db`txs, db`journals
    ensures (db.Tables(), ok) == Attempt(old(db.Tables()), ApplyStatus(old(db.Books()), id, kind, status), d)
  {
    var done := d != NotSent;
    if done {
      match status
      case Paid =>
        if kind != Ledger.PixIn { done := db.CompleteOutbound(id); } else { done := db.SettlePixIn(id); }
      case Refused =>
        if kind == Ledger.PixIn { db.UpdateStatus(id, Ledger.Failed); } else { done := db.FailOutbound(id); }
      case StillPending =>
    }
    ok := done && d == Delivered;
  }

  method FetchTx(db: Database, org: Id, id: Id, d: Delivery) returns (row: Option<Ledger.Tx>)
    ensures row == if d == Delivered then FetchTransaction(db.Books(), org, id) else None
  {
    if d == Delivered && id in db.txs && db.txs[id].org == org {
      return Some(db.txs[id]);
    }
    return None;
  }

  // --- the handlers ------------------------------------------------------------------

  predicate Ended(run: Run) {
    match run
    case Create(_, _, pc) => pc.CreateDone?
    case Webhook(_, pc) => pc.WebhookDone?
    case Reconcile(_, _, pc) => pc.ReconcileDone?
  }

  lemma {:induction false} EndedStays(s: Store, rid: Id, run: Run, script: seq<Choice>)
    requires Ended(run)
    ensures Alone(s, rid, run, script) == (s, run)
    decreases |script|
  {
    if script != [] { EndedStays(s, rid, run, script[1..]); }
  }

  /** The step at position i of a script, and the ending when it ends the run. */
  lemma AloneStep(s: Store, rid: Id, run: Run, script: seq<Choice>, i: nat)
    requires i < |script|
    ensures var e := Step(s, rid, run, script[i]);
            && Alone(s, rid, run, script[i..]) == Alone(e.store, rid, e.run, script[i + 1..])
            && (Ended(e.run) ==> Alone(s, rid, run, script[i..]) == (e.store, e.run))
  {
    var e := Step(s, rid, run, script[i]);
    assert script[i..][1..] == script[i + 1..];
    if Ended(e.run) { EndedStays(e.store, rid, e.run, script[i + 1..]); }
  }

  /** A run advanced alone is one of the machine's histories, so what holds of every history
      holds of the handlers below. */
  lemma {:induction false} AloneIsAHistory(s: State, rid: Id, script: seq<Choice>)
    requires rid in s.runs
    ensures var s' := Exec(s, seq(|script|, i requires 0 <= i < |script| => Advance(rid, script[i])));
            && s'.store == Alone(s.store, rid, s.runs[rid], script).0
            && rid in s'.runs && s'.runs[rid] == Alone(s.store, rid, s.runs[rid], script).1
    decreases |script|
  {
    var history := seq(|script|, i requires 0 <= i < |script| => Advance(rid, script[i]));
    if script != [] {
      var rest := script[1..];
      assert history[1..] == seq(|rest|, i requires 0 <= i < |rest| => Advance(rid, rest[i]));
      AloneIsAHistory(Next(s, history[0]), rid, rest);
    }
  }

  /** createChargeForOrg and createOutboundForOrg after their reads. */
  method CreateForOrg(db: Database, ghost rid: Id, req: Request, script: seq<Choice>) returns (reply: CreateReply)
    requires |script| >= 7
    modifies db`txs, db`order, db`journals, db`keys
    ensures Alone(old(db.Tables()), rid, Create(req, false, Claim), script)
            == (db.Tables(), Create(req, Acquires(old(db.Tables()), req, script[0]), CreateDone(reply)))
  {
    var key := req.Scope();
    assert script[0..] == script;
    AloneStep(db.Tables(), rid, Create(req, false, Claim), script, 0);
    if script[0].delivery == NotSent { return ServerError; }
    var claim := db.ClaimIdempotency(key, req.fingerprint, req.id);
    if script[0].delivery == ReplyLost { return ServerError; }
    match claim {
      case Conflict => return KeyReused;
      case Replay(response) => return Replayed(response);
      case Busy => return InProgress;
      case Acquired =>
    }
    var begun := BeginFor(db, rid, req, script);
    if !begun { return NotBegun; }
    reply := CallAndFollow(db, rid, req, script);
  }

  /** begin_pix_in or begin_outbound. */
  method BeginFor(db: Database, ghost rid: Id, req: Request, script: seq<Choice>) returns (ok: bool)
    requires |script| >= 2
    modifies db`txs, db`order, db`journals
    ensures Alone(old(db.Tables()), rid, Create(req, true, Begin), script[1..])
            == if ok then Alone(db.Tables(), rid, Create(req, true, CallProvider), script[2..])
               else (db.Tables(), Create(req, true, CreateDone(NotBegun)))
  {
    AloneStep(db.Tables(), rid, Create(req, true, Begin), script, 1);
    ok := script[1].delivery != NotSent;
    if ok {
      if req.kind == Ledger.PixIn {
        ok := db.BeginPixIn(req.id, req.org, req.account, req.provider, req.connection, req.amount);
      } else {
        ok := db.BeginOutbound(req.id, req.org, req.account, req.kind, req.provider, req.connection, req.amount);
      }
    }
    ok := ok && script[1].delivery == Delivered;
  }

  /** The provider call and its three outcomes. */
  method CallAndFollow(db: Database, ghost rid: Id, req: Request, script: seq<Choice>) returns (reply: CreateReply)
    requires |script| >= 7
    modifies db`txs, db`journals, db`keys
    ensures Alone(old(db.Tables()), rid, Create(req, true, CallProvider), script[2..])
            == (db.Tables(), Create(req, true, CreateDone(reply)))
  {
    AloneStep(db.Tables(), rid, Create(req, true, CallProvider), script, 2);
    match script[2].reply {
      case FinalError => reply := FollowRejection(db, rid, req, script);
      case UnknownError => reply := FollowUnknown(db, rid, req, script);
      case Accepted(externalId, status) => reply := RecordAndApply(db, rid, req, externalId, status, script, 3);
    }
  }

  /** A final provider error: release or fail the payment, whose own errors are ignored. */
  method FollowRejection(db: Database, ghost rid: Id, req: Request, script: seq<Choice>) returns (reply: CreateReply)
    requires |script| >= 7
    modifies db`txs, db`journals, db`keys
    ensures Alone(old(db.Tables()), rid, Create(req, true, Reject), script[3..])
            == (db.Tables(), Create(req, true, CreateDone(reply)))
  {
    AloneStep(db.Tables(), rid, Create(req, true, Reject), script, 3);
    var _ := ApplyProviderStatus(db, req.id, req.kind, Refused, script[3].delivery);
    var snapshot := FetchOrZero(db, rid, req, FailedFinal, script, 4);
    reply := Conclude(db, rid, req, FailedFinal, snapshot, script, 5);
  }

  /** Any other provider error: the outcome is unknown and the funds stay reserved. */
  method FollowUnknown(db: Database, ghost rid: Id, req: Request, script: seq<Choice>) returns (reply: CreateReply)
    requires |script| >= 7
    modifies db`txs, db`journals, db`keys
    ensures Alone(old(db.Tables()), rid, Create(req, true, MarkAmbiguous), script[3..])
            == (db.Tables(), Create(req, true, CreateDone(reply)))
  {
    AloneStep(db.Tables(), rid, Create(req, true, MarkAmbiguous), script, 3);
    if script[3].delivery != NotSent { db.UpdateStatus(req.id, Ledger.Ambiguous); }
    var snapshot := FetchOrZero(db, rid, req, KeyAmbiguous, script, 4);
    reply := Conclude(db, rid, req, KeyAmbiguous, snapshot, script, 5);
  }

  /** Whether the first call of a run acquires its key. */
  predicate Acquires(s: Store, req: Request, c: Choice) {
    c.delivery == Delivered && ClaimKey(s, req.Scope(), req.fingerprint, req.id).1 == Acquired
  }

  /** The fetch whose error the failure branches ignore. */
  method FetchOrZero(db: Database, ghost rid: Id, req: Request, ghost outcome: KeyStatus, script: seq<Choice>, i: nat)
    returns (snapshot: Snapshot)
    requires i < |script| && outcome != KeySucceeded
    ensures Alone(db.Tables(), rid, Create(req, true, FetchResult(outcome)), script[i..])
            == Alone(db.Tables(), rid, Create(req, true, Finish(outcome, snapshot)), script[i + 1..])
  {
    AloneStep(db.Tables(), rid, Create(req, true, FetchResult(outcome)), script, i);
    var row := FetchTx(db, req.org, req.id, script[i].delivery);
    snapshot := if row.Some? then Row(req.id, row.value) else Zero;
  }

  /** finish_idempotency and the answer that goes with the outcome. */
  method Conclude(db: Database, ghost rid: Id, req: Request, outcome: KeyStatus, snapshot: Snapshot,
                  script: seq<Choice>, i: nat)
    returns (reply: CreateReply)
    requires i < |script|
    modifies db`keys
    ensures Alone(old(db.Tables()), rid, Create(req, true, Finish(outcome, snapshot)), script[i..])
            == (db.Tables(), Create(req, true, CreateDone(reply)))
  {
    AloneStep(db.Tables(), rid, Create(req, true, Finish(outcome, snapshot)), script, i);
    if script[i].delivery != NotSent { db.FinishIdempotency(req.Scope(), outcome, snapshot); }
    var confirmed := script[i].delivery == Delivered;
    match outcome {
      case FailedFinal => return RejectedByProvider(snapshot);
      case KeyAmbiguous => return OutcomeUnknown(snapshot);
      case _ => return if confirmed then Created(snapshot) else ServerError;
    }
  }

  /** The success branch: record the external id, apply the reported status, fetch, finish. */
  method RecordAndApply(db: Database, ghost rid: Id, req: Request, externalId: string, status: ProviderStatus,
                        script: seq<Choice>, i: nat)
    returns (reply: CreateReply)
    requires i + 4 <= |script|
    modifies db`txs, db`journals, db`keys
    ensures Alone(old(db.Tables()), rid, Create(req, true, Record(externalId, status)), script[i..])
            == (db.Tables(), Create(req, true, CreateDone(reply)))
  {
    AloneStep(db.Tables(), rid, Create(req, true, Record(externalId, status)), script, i);
    var recorded := script[i].delivery != NotSent;
    if recorded { recorded := db.PatchExternalId(req.id, externalId); }
    if !recorded || script[i].delivery != Delivered { return ServerError; }
    AloneStep(db.Tables(), rid, Create(req, true, ApplyReported(status)), script, i + 1);
    if status != StillPending {
      var ok := ApplyProviderStatus(db, req.id, req.kind, status, script[i + 1].delivery);
      if !ok { return ServerError; }
    }
    AloneStep(db.Tables(), rid, Create(req, true, FetchResult(KeySucceeded)), script, i + 2);
    var row := FetchTx(db, req.org, req.id, script[i + 2].delivery);
    if row.None? { return ServerError; }
    reply := Conclude(db, rid, req, KeySucceeded, Row(req.id, row.value), script, i + 3);
  }

  /** providerWebhook after the event is authenticated. */
  method ProviderWebhook(db: Database, ghost rid: Id, event: Event, script: seq<Choice>) returns (reply: WebhookReply)
    requires |script| >= 5
    modifies db`txs, db`journals, db`evidence
    ensures Alone(old(db.Tables()), rid, Webhook(event, Persist), script)
            == (db.Tables(), Webhook(event, WebhookDone(reply)))
  {
    assert script[0..] == script;
    AloneStep(db.Tables(), rid, Webhook(event, Persist), script, 0);
    if script[0].delivery == NotSent { return WebhookError; }
    var evidence, i := EvidenceKey(event.connection, event.eventId), 1;
    var inserted := evidence !in db.evidence;
    if inserted { db.evidence := db.evidence[evidence := false]; }
    if script[0].delivery == ReplyLost { return WebhookError; }
    if !inserted {
      AloneStep(db.Tables(), rid, Webhook(event, ReadEvidence), script, 1);
      if script[1].delivery != Delivered { return WebhookError; }
      if db.evidence[evidence] { return Duplicate; }
      i := 2;
    }
    reply := ApplyDelivery(db, rid, event, script, i);
  }

  /** Find the transaction, check the event against it, apply the status, set processed_at. */
  method ApplyDelivery(db: Database, ghost rid: Id, event: Event, script: seq<Choice>, i: nat)
    returns (reply: WebhookReply)
    requires i + 3 <= |script| && EvidenceKey(event.connection, event.eventId) in db.evidence
    modifies db`txs, db`journals, db`evidence
    ensures Alone(old(db.Tables()), rid, Webhook(event, Lookup), script[i..])
            == (db.Tables(), Webhook(event, WebhookDone(reply)))
  {
    var n := i;
    AloneStep(db.Tables(), rid, Webhook(event, Lookup), script, n);
    if script[n].delivery != Delivered { return UnknownExternalId; }
    var found := Ledger.FindByExternalId(db.txs, db.order, event.connection, event.externalId);
    if found.None? || found.value !in db.txs { return UnknownExternalId; }
    var tx := db.txs[found.value];
    if event.kind.Some? && event.kind.value != tx.kind { return EventConflict; }
    if event.amount > 0 && event.amount != tx.amount { return EventConflict; }
    n := n + 1;
    if event.status != StillPending {
      AloneStep(db.Tables(), rid, Webhook(event, ApplyEvent(found.value, tx.kind)), script, n);
      var ok := ApplyProviderStatus(db, found.value, tx.kind, event.status, script[n].delivery);
      if !ok { return IllegalTransition; }
      n := n + 1;
    }
    AloneStep(db.Tables(), rid, Webhook(event, Finalize), script, n);
    if script[n].delivery != NotSent {
      db.evidence := db.evidence[EvidenceKey(event.connection, event.eventId) := true];
    }
    return if script[n].delivery == Delivered then Received else WebhookError;
  }

  /** consoleReconcileTransaction after the caller's role is checked. */
  method ReconcileTransaction(db: Database, ghost rid: Id, org: Id, id: Id, script: seq<Choice>)
    returns (reply: ReconcileReply)
    requires |script| >= 5
    modifies db`txs, db`journals
    ensures Alone(old(db.Tables()), rid, Reconcile(org, id, FetchRow), script)
            == (db.Tables(), Reconcile(org, id, ReconcileDone(reply)))
  {
    assert script[0..] == script;
    AloneStep(db.Tables(), rid, Reconcile(org, id, FetchRow), script, 0);
    var row := FetchTx(db, org, id, script[0].delivery);
    if row.None? { return NotFound; }
    var seen := row.value;
    if seen.status == Ledger.Succeeded || seen.status == Ledger.Failed { return AlreadyFinal(seen); }
    if seen.connection.None? || seen.externalId.None? || seen.externalId.value == "" { return Unavailable; }
    AloneStep(db.Tables(), rid, Reconcile(org, id, Ask(seen)), script, 1);
    if !script[1].reply.Accepted? { return ProviderFailed; }
    var answer := script[1].reply;
    if answer.externalId != "" && answer.externalId != seen.externalId.value { return IdentityConflict; }
    reply := SettleAnswer(db, rid, org, id, seen, answer.status, script);
  }

  /** Store the payload, apply the answer, read the row again. */
  method SettleAnswer(db: Database, ghost rid: Id, org: Id, id: Id, seen: Ledger.Tx, status: ProviderStatus,
                      script: seq<Choice>)
    returns (reply: ReconcileReply)
    requires |script| >= 5
    modifies db`txs, db`journals
    ensures Alone(old(db.Tables()), rid, Reconcile(org, id, StorePayload(seen, status)), script[2..])
            == (db.Tables(), Reconcile(org, id, ReconcileDone(reply)))
  {
    var n := 3;
    AloneStep(db.Tables(), rid, Reconcile(org, id, StorePayload(seen, status)), script, 2);
    if script[2].delivery != Delivered { return UpdateFailed; }
    if status == StillPending {
      if seen.status == Ledger.Ambiguous {
        AloneStep(db.Tables(), rid, Reconcile(org, id, ResetPending(seen)), script, 3);
        if script[3].delivery != NotSent { db.UpdateStatus(id, Ledger.Pending); }
        if script[3].delivery != Delivered { return UpdateFailed; }
        n := 4;
      }
    } else {
      AloneStep(db.Tables(), rid, Reconcile(org, id, ApplyAnswer(seen, status)), script, 3);
      var ok := ApplyProviderStatus(db, id, seen.kind, status, script[3].delivery);
      if !ok { return TransitionRefused; }
      n := 4;
    }
    AloneStep(db.Tables(), rid, Reconcile(org, id, Reload(status)), script, n);
    var reloaded := FetchTx(db, org, id, script[n].delivery);
    if reloaded.None? { return ReloadFailed; }
    return if reloaded.value.status == Ledger.Ambiguous then Unresolved else Reconciled(reloaded.value);
  }
}
