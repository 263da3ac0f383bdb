/** What the handlers bring about from any reachable state when every call is delivered and nothing
    runs in between. */
module GatewayUndisturbed {
  import opened Wrappers
  import opened Ledger
  import opened Gateway
  import opened GatewaySafety
  import opened GatewayReach
  import opened GatewayDeliveries
  import opened GatewayHistories

  lemma ReachedIsInv(history: seq<Action>)
    ensures Inv(Reached(history))
  {
    InitialInv();
    ExecKeepsInv(INITIAL, history);
  }

  /** The status that a provider's answer stands for. */
  function Meaning(status: ProviderStatus): Status {
    match status
    case StillPending => Pending
    case Paid => Succeeded
    case Refused => Failed
  }

  lemma ApplyMeans(b: Books, id: Id, status: ProviderStatus)
    requires id in b.txs && RowOk(b.txs[id]) && b.txs[id].status == Pending
    ensures var r := ApplyStatus(b, id, b.txs[id].kind, status);
            r.Some? && r.value.txs == b.txs[id := b.txs[id].(status := Meaning(status))]
  {
  }

  /** What a reported status makes of a row's status, None when the transition is refused. A refusal
      is the one report that still changes a terminal row: a paid pix_in. */
  function Outcome(tx: Tx, status: ProviderStatus): Option<Status> {
    match status
    case StillPending => Some(tx.status)
    case Paid => if tx.status == Failed then None else Some(Succeeded)
    case Refused => if tx.status == Succeeded && tx.kind != PixIn then None else Some(Failed)
  }

  lemma ApplyHasOutcome(b: Books, id: Id, status: ProviderStatus)
    requires id in b.txs && RowOk(b.txs[id])
    ensures var r, outcome := ApplyStatus(b, id, b.txs[id].kind, status), Outcome(b.txs[id], status);
            && (r.Some? <==> outcome.Some?)
            && (r.Some? ==> r.value.txs == b.txs[id := b.txs[id].(status := outcome.value)])
  {
  }

  // --- creating a payment -------------------------------------------------------------------

  /** A create run between its begin and its answer: its row is open and its key in processing. */
  ghost predicate Underway(s: State, rid: Id, req: Request, pc: CreatePc, row: Tx) {
    && rid in s.runs && s.runs[rid] == Create(req, true, pc)
    && req.id in s.store.books.txs && s.store.books.txs[req.id] == row && Matches(req, row)
    && req.Scope() in s.store.keys
    && s.store.keys[req.Scope()] == KeyRow(req.fingerprint, req.id, Processing, None)
  }

  /** No row has that external id under the request's connection. */
  predicate IdentityFree(b: Books, req: Request, externalId: string) {
    forall id <- b.txs :: !(b.txs[id].externalId == Some(externalId) && b.txs[id].connection == req.connection)
  }

  function AfterCall(reply: ProviderReply): CreatePc {
    match reply
    case Accepted(externalId, status) => Record(externalId, status)
    case FinalError => Reject
    case UnknownError => MarkAmbiguous
  }

  lemma Begins(history: seq<Action>, rid: Id, req: Request, go: Choice) returns (longer: seq<Action>)
    requires rid in Reached(history).runs && Reached(history).runs[rid] == Create(req, false, Claim)
    requires req.Scope() !in Reached(history).store.keys && BeginFor(Reached(history).store.books, req).Some?
    requires go.delivery == Delivered
    ensures history <= longer
    ensures var s, s' := Reached(history), Reached(longer);
            && s'.store.books == BeginFor(s.store.books, req).value
            && s'.store.keys == s.store.keys[req.Scope() := KeyRow(req.fingerprint, req.id, Processing, None)]
            && rid in s'.runs && s'.runs[rid] == Create(req, true, CallProvider)
  {
    hide BeginFor;
    longer := Play(history, Advance(rid, go));
    longer := Play(longer, Advance(rid, go));
  }

  lemma CallsProvider(history: seq<Action>, rid: Id, req: Request, go: Choice) returns (longer: seq<Action>)
    requires rid in Reached(history).runs && Reached(history).runs[rid] == Create(req, false, Claim)
    requires req.Scope() !in Reached(history).store.keys && BeginFor(Reached(history).store.books, req).Some?
    requires go.delivery == Delivered
    ensures history <= longer && req.id in Reached(longer).store.books.txs
    ensures var b, b' := Reached(history).store.books, Reached(longer).store.books;
            && Underway(Reached(longer), rid, req, AfterCall(go.reply), b'.txs[req.id])
            && b'.txs[req.id].status == Pending && b'.txs[req.id].externalId.None?
            && (forall x <- b'.txs :: x != req.id ==> x in b.txs && b'.txs[x] == b.txs[x])
  {
    ReachedIsInv(history);
    BeginEffect(Reached(history).store.books, req);
    BeginAddsOne(Reached(history).store.books, req);
    hide Inv, BooksOk, BeginFor;
    var begun := Begins(history, rid, req, go);
    longer := Play(begun, Advance(rid, go));
    assert Reached(longer).store == Reached(begun).store;
    hide Next;
  }

  lemma BeginAddsOne(b: Books, req: Request)
    ensures var r := BeginFor(b, req); r.Some? ==> r.value.txs.Keys == b.txs.Keys + {req.id}
  {
  }

  /** The last two steps: fetch the row, store it and answer with it. */
  lemma Answers(history: seq<Action>, rid: Id, req: Request, outcome: KeyStatus, go: Choice)
    returns (longer: seq<Action>)
    requires rid in Reached(history).runs && Reached(history).runs[rid] == Create(req, true, FetchResult(outcome))
    requires outcome != Processing && go.delivery == Delivered && req.Scope() in Reached(history).store.keys
    requires req.id in Reached(history).store.books.txs && Reached(history).store.books.txs[req.id].org == req.org
    ensures history <= longer && req.id in Reached(longer).store.books.txs
    ensures AnswersWith(Reached(longer), rid, req, outcome, Reached(history).store.books.txs[req.id])
  {
    longer := Play(history, Advance(rid, go));
    longer := Play(longer, Advance(rid, go));
  }

  /** The run has answered with the row as it is in the books, and that answer is stored. */
  ghost predicate AnswersWith(s: State, rid: Id, req: Request, outcome: KeyStatus, row: Tx) {
    var shown := Row(req.id, row);
    && req.id in s.store.books.txs && s.store.books.txs[req.id] == row
    && rid in s.runs
    && s.runs[rid] == Create(req, true, CreateDone(match outcome
                                                   case FailedFinal => RejectedByProvider(shown)
                                                   case KeyAmbiguous => OutcomeUnknown(shown)
                                                   case _ => Created(shown)))
    && req.Scope() in s.store.keys
    && s.store.keys[req.Scope()].status == outcome && s.store.keys[req.Scope()].response == Some(shown)
  }

  lemma Rejects(history: seq<Action>, rid: Id, req: Request, go: Choice) returns (longer: seq<Action>)
    requires req.id in Reached(history).store.books.txs && go.delivery == Delivered
    requires var row := Reached(history).store.books.txs[req.id];
             Underway(Reached(history), rid, req, Reject, row) && row.status == Pending
    ensures history <= longer
    ensures AnswersWith(Reached(longer), rid, req, FailedFinal,
                        Reached(history).store.books.txs[req.id].(status := Failed))
  {
    ReachedIsInv(history);
    RowAndTrail(Reached(history).store.books, req.id);
    ApplyMeans(Reached(history).store.books, req.id, Refused);
    hide Inv, BooksOk, ApplyStatus;
    longer := Play(history, Advance(rid, go));
    longer := Answers(longer, rid, req, FailedFinal, go);
  }

  lemma Marks(history: seq<Action>, rid: Id, req: Request, go: Choice) returns (longer: seq<Action>)
    requires req.id in Reached(history).store.books.txs && go.delivery == Delivered
    requires Underway(Reached(history), rid, req, MarkAmbiguous, Reached(history).store.books.txs[req.id])
    ensures history <= longer
    ensures AnswersWith(Reached(longer), rid, req, KeyAmbiguous,
                        Reached(history).store.books.txs[req.id].(status := Ambiguous))
  {
    longer := Play(history, Advance(rid, go));
    longer := Answers(longer, rid, req, KeyAmbiguous, go);
  }

  lemma RecordsId(history: seq<Action>, rid: Id, req: Request, externalId: string, status: ProviderStatus, go: Choice)
    returns (longer: seq<Action>)
    requires req.id in Reached(history).store.books.txs && go.delivery == Delivered
    requires var b := Reached(history).store.books;
             && Underway(Reached(history), rid, req, Record(externalId, status), b.txs[req.id])
             && forall x <- b.txs :: x != req.id ==> !(b.txs[x].externalId == Some(externalId)
                                                       && b.txs[x].connection == req.connection)
    ensures history <= longer
    ensures var row := Reached(history).store.books.txs[req.id].(externalId := Some(externalId));
            Underway(Reached(longer), rid, req, ApplyReported(status), row)
  {
    longer := Play(history, Advance(rid, go));
  }

  lemma Records(history: seq<Action>, rid: Id, req: Request, externalId: string, status: ProviderStatus, go: Choice)
    returns (longer: seq<Action>)
    requires req.id in Reached(history).store.books.txs && go.delivery == Delivered
    requires var b := Reached(history).store.books;
             && Underway(Reached(history), rid, req, Record(externalId, status), b.txs[req.id])
             && b.txs[req.id].status == Pending
             && forall x <- b.txs :: x != req.id ==> !(b.txs[x].externalId == Some(externalId)
                                                       && b.txs[x].connection == req.connection)
    ensures history <= longer
    ensures var row := Reached(history).store.books.txs[req.id];
            AnswersWith(Reached(longer), rid, req, KeySucceeded,
                        row.(externalId := Some(externalId), status := Meaning(status)))
  {
    longer := RecordsId(history, rid, req, externalId, status, go);
    ReachedIsInv(longer);
    RowAndTrail(Reached(longer).store.books, req.id);
    ApplyMeans(Reached(longer).store.books, req.id, status);
    hide Inv, BooksOk, ApplyStatus, PatchExternalId;
    longer := Play(longer, Advance(rid, go));
    longer := Answers(longer, rid, req, KeySucceeded, go);
  }

  /** From every reachable state, a create request whose key is free and whose payment can be begun,
      with every call delivered, ends with the row as it then is in the books: Created with the
      external id and the reported status, RejectedByProvider with a failed row, or OutcomeUnknown
      with an ambiguous one. The answer is stored under the key. */
  lemma UndisturbedCreate(history: seq<Action>, rid: Id, req: Request, go: Choice) returns (longer: seq<Action>)
    requires rid in Reached(history).runs && Reached(history).runs[rid] == Create(req, false, Claim)
    requires req.Scope() !in Reached(history).store.keys && BeginFor(Reached(history).store.books, req).Some?
    requires go.delivery == Delivered
    requires go.reply.Accepted? ==> IdentityFree(Reached(history).store.books, req, go.reply.externalId)
    ensures history <= longer && req.id in Reached(longer).store.books.txs
    ensures var row := Reached(longer).store.books.txs[req.id];
            && Matches(req, row)
            && match go.reply
               case Accepted(externalId, status) =>
                 && row.externalId == Some(externalId) && row.status == Meaning(status)
                 && AnswersWith(Reached(longer), rid, req, KeySucceeded, row)
               case FinalError => row.status == Failed && AnswersWith(Reached(longer), rid, req, FailedFinal, row)
               case UnknownError => row.status == Ambiguous && AnswersWith(Reached(longer), rid, req, KeyAmbiguous, row)
  {
    longer := CallsProvider(history, rid, req, go);
    hide Underway, Reached;
    match go.reply
    case Accepted(externalId, status) => longer := Records(longer, rid, req, externalId, status, go);
    case FinalError => longer := Rejects(longer, rid, req, go);
    case UnknownError => longer := Marks(longer, rid, req, go);
  }

  // --- a webhook delivery -------------------------------------------------------------------

  lemma FindsAgreeingRow(b: Books, id: Id, e: Event)
    requires BooksOk(b) && id in b.txs && Agrees(b.txs[id], e)
    ensures FindByExternalId(b.txs, b.order, e.connection, e.externalId) == Some(id)
  {
    assert id in b.order && IdentitiesUnique(b.txs);
    FindsTheRow(b.txs, b.order, id);
  }

  lemma LooksUp(s: State, rid: Id, e: Event, id: Id)
    requires Inv(s) && rid in s.runs && s.runs[rid] == Webhook(e, Lookup)
    requires id in s.store.books.txs && Agrees(s.store.books.txs[id], e)
    ensures var pc := if e.status == StillPending then Finalize else ApplyEvent(id, s.store.books.txs[id].kind);
            Next(s, Advance(rid, Choice(Delivered, UnknownError)))
              == s.(runs := s.runs[rid := Webhook(e, pc)])
  {
    FindsAgreeingRow(s.store.books, id, e);
    hide Inv, BooksOk, FindByExternalId;
  }

  lemma ReachesLookup(history: seq<Action>, rid: Id, e: Event) returns (longer: seq<Action>)
    requires rid !in Reached(history).runs && !IsProcessed(Reached(history).store, e)
    ensures history <= longer
    ensures var s, s' := Reached(history), Reached(longer);
            && s'.store == s.store.(evidence := s.store.evidence[EvidenceKey(e.connection, e.eventId) := false])
            && s'.runs == s.runs[rid := Webhook(e, Lookup)]
  {
    var go := Choice(Delivered, UnknownError);
    longer := Play(history, StartWebhook(rid, e));
    longer := Play(longer, Advance(rid, go));
    if EvidenceKey(e.connection, e.eventId) in Reached(history).store.evidence {
      longer := Play(longer, Advance(rid, go));
    }
  }

  lemma ReachesItsRow(history: seq<Action>, rid: Id, e: Event, id: Id) returns (longer: seq<Action>)
    requires var s := Reached(history);
             && rid !in s.runs && !IsProcessed(s.store, e)
             && id in s.store.books.txs && Agrees(s.store.books.txs[id], e)
    ensures history <= longer
    ensures var s, s' := Reached(history), Reached(longer);
            && s'.store == s.store.(evidence := s.store.evidence[EvidenceKey(e.connection, e.eventId) := false])
            && rid in s'.runs
            && s'.runs[rid] == Webhook(e, if e.status == StillPending then Finalize
                                          else ApplyEvent(id, s.store.books.txs[id].kind))
  {
    hide Inv;
    longer := ReachesLookup(history, rid, e);
    ReachedIsInv(longer);
    LooksUp(Reached(longer), rid, e, id);
    hide Next, Agrees;
    longer := Play(longer, Advance(rid, Choice(Delivered, UnknownError)));
  }

  lemma Finalizes(history: seq<Action>, rid: Id, e: Event) returns (longer: seq<Action>)
    requires var s := Reached(history);
             && rid in s.runs && s.runs[rid] == Webhook(e, Finalize)
             && EvidenceKey(e.connection, e.eventId) in s.store.evidence
    ensures history <= longer
    ensures var s, s' := Reached(history), Reached(longer);
            && s'.store == s.store.(evidence := s.store.evidence[EvidenceKey(e.connection, e.eventId) := true])
            && rid in s'.runs && s'.runs[rid] == Webhook(e, WebhookDone(Received))
  {
    longer := Play(history, Advance(rid, Choice(Delivered, UnknownError)));
  }

  lemma AppliesEvent(history: seq<Action>, rid: Id, e: Event, id: Id) returns (longer: seq<Action>)
    requires var s := Reached(history);
             && id in s.store.books.txs && rid in s.runs
             && s.runs[rid] == Webhook(e, ApplyEvent(id, s.store.books.txs[id].kind))
    ensures history <= longer
    ensures var s, s' := Reached(history), Reached(longer);
            var outcome := Outcome(s.store.books.txs[id], e.status);
            && s'.store.evidence == s.store.evidence && rid in s'.runs
            && (if outcome.None? then s'.store == s.store && s'.runs[rid] == Webhook(e, WebhookDone(IllegalTransition))
                else s'.store.books.txs == s.store.books.txs[id := s.store.books.txs[id].(status := outcome.value)]
                     && s'.runs[rid] == Webhook(e, Finalize))
  {
    ReachedIsInv(history);
    RowAndTrail(Reached(history).store.books, id);
    ApplyHasOutcome(Reached(history).store.books, id, e.status);
    hide Inv, BooksOk, ApplyStatus, Outcome;
    longer := Play(history, Advance(rid, Choice(Delivered, UnknownError)));
  }

  /** From every reachable state, a delivery of an unprocessed event, the first or a repeated one,
      that agrees with a row: it brings the outcome about, is answered as received and marked as
      processed, or the transition is refused, nothing changes and the event stays unprocessed. */
  lemma UndisturbedDelivery(history: seq<Action>, rid: Id, e: Event, id: Id) returns (longer: seq<Action>)
    requires var s := Reached(history);
             && rid !in s.runs && !IsProcessed(s.store, e)
             && id in s.store.books.txs && Agrees(s.store.books.txs[id], e)
    ensures history <= longer
    ensures var s, s' := Reached(history), Reached(longer);
            var key, outcome := EvidenceKey(e.connection, e.eventId), Outcome(s.store.books.txs[id], e.status);
            && rid in s'.runs && s'.store.evidence == s.store.evidence[key := outcome.Some?]
            && (if outcome.None? then
                  s'.store.books == s.store.books && s'.runs[rid] == Webhook(e, WebhookDone(IllegalTransition))
                else
                  && s'.store.books.txs == s.store.books.txs[id := s.store.books.txs[id].(status := outcome.value)]
                  && s'.runs[rid] == Webhook(e, WebhookDone(Received)))
  {
    hide Reached, Agrees;
    longer := ReachesItsRow(history, rid, e, id);
    if e.status != StillPending { longer := AppliesEvent(longer, rid, e, id); }
    hide Outcome;
    if Outcome(Reached(history).store.books.txs[id], e.status).Some? { longer := Finalizes(longer, rid, e); }
  }

  /** An event for which there is no row is answered so, and stays unprocessed: it is looked up again
      when it is delivered again. */
  lemma UnknownEventStaysUnprocessed(history: seq<Action>, rid: Id, e: Event) returns (longer: seq<Action>)
    requires rid !in Reached(history).runs && !IsProcessed(Reached(history).store, e)
    requires forall id <- Reached(history).store.books.txs :: !Identified(Reached(history).store.books.txs[id], e)
    ensures history <= longer && Reached(longer).store.books == Reached(history).store.books
    ensures var s := Reached(longer);
            rid in s.runs && s.runs[rid] == Webhook(e, WebhookDone(UnknownExternalId)) && !IsProcessed(s.store, e)
  {
    longer := ReachesLookup(history, rid, e);
    var b := Reached(longer).store.books;
    FoundIsRecorded(b.txs, b.order, e.connection, e.externalId);
    hide FindByExternalId;
    longer := Play(longer, Advance(rid, Choice(Delivered, UnknownError)));
  }

  /** A delivery of an event that is already processed, with its calls delivered, is answered as a
      duplicate and changes nothing. */
  lemma RedeliveryIsADuplicate(history: seq<Action>, rid: Id, e: Event) returns (longer: seq<Action>)
    requires rid !in Reached(history).runs
    requires var evidence := Reached(history).store.evidence;
             EvidenceKey(e.connection, e.eventId) in evidence && evidence[EvidenceKey(e.connection, e.eventId)]
    ensures history <= longer && Reached(longer).store == Reached(history).store
    ensures rid in Reached(longer).runs && Reached(longer).runs[rid] == Webhook(e, WebhookDone(Duplicate))
  {
    var go := Choice(Delivered, UnknownError);
    longer := Play(history, StartWebhook(rid, e));
    longer := Play(longer, Advance(rid, go));
    longer := Play(longer, Advance(rid, go));
  }

  // --- a reconciliation ---------------------------------------------------------------------

  /** What a delivered read of the row decides: whether the provider is asked, and the answer when it
      is not. */
  lemma OnlyOpenIdentifiableRowsAreAsked(s: State, rid: Id, org: Id, id: Id)
    requires rid in s.runs && s.runs[rid] == Reconcile(org, id, FetchRow)
    ensures var s', txs := Next(s, Advance(rid, Choice(Delivered, UnknownError))), s.store.books.txs;
            var mine := id in txs && txs[id].org == org;
            && s'.store == s.store && rid in s'.runs && s'.runs[rid].Reconcile?
            && var pc := s'.runs[rid].rpc;
               && (pc == ReconcileDone(NotFound) <==> !mine)
               && (mine && txs[id].Terminal() ==> pc == ReconcileDone(AlreadyFinal(txs[id])))
               && (mine && !txs[id].Terminal() ==>
                     pc == if Findable(txs[id]) && txs[id].externalId.value != "" then Ask(txs[id])
                           else ReconcileDone(Unavailable))
  {
  }

  lemma AsksProvider(history: seq<Action>, rid: Id, org: Id, id: Id, externalId: string, answer: ProviderStatus)
    returns (longer: seq<Action>)
    requires var s := Reached(history);
             && rid !in s.runs && id in s.store.books.txs && s.store.books.txs[id].org == org
             && Findable(s.store.books.txs[id]) && s.store.books.txs[id].externalId.value != ""
             && s.store.books.txs[id].status == Pending
             && (externalId == "" || Some(externalId) == s.store.books.txs[id].externalId)
    ensures history <= longer && Reached(longer).store == Reached(history).store && rid in Reached(longer).runs
    ensures var s, s' := Reached(history), Reached(longer);
            s'.runs[rid] == Reconcile(org, id, if answer == StillPending then Reload(answer)
                                               else ApplyAnswer(s.store.books.txs[id], answer))
  {
    var go := Choice(Delivered, Accepted(externalId, answer));
    longer := Play(history, StartReconcile(rid, org, id));
    longer := Play(longer, Advance(rid, go));
    longer := Play(longer, Advance(rid, go));
    longer := Play(longer, Advance(rid, go));
  }

  lemma AppliesAnswer(history: seq<Action>, rid: Id, org: Id, id: Id, answer: ProviderStatus)
    returns (longer: seq<Action>)
    requires var s := Reached(history);
             && id in s.store.books.txs && s.store.books.txs[id].status == Pending && rid in s.runs
             && s.runs[rid] == Reconcile(org, id, ApplyAnswer(s.store.books.txs[id], answer))
    ensures history <= longer
    ensures var s, s' := Reached(history), Reached(longer);
            && s'.store.books.txs == s.store.books.txs[id := s.store.books.txs[id].(status := Meaning(answer))]
            && rid in s'.runs && s'.runs[rid] == Reconcile(org, id, Reload(answer))
  {
    ReachedIsInv(history);
    RowAndTrail(Reached(history).store.books, id);
    ApplyMeans(Reached(history).store.books, id, answer);
    hide Inv, BooksOk, ApplyStatus;
    longer := Play(history, Advance(rid, Choice(Delivered, UnknownError)));
  }

  lemma Reloads(history: seq<Action>, rid: Id, org: Id, id: Id, answer: ProviderStatus) returns (longer: seq<Action>)
    requires var s := Reached(history);
             && id in s.store.books.txs && s.store.books.txs[id].org == org && s.store.books.txs[id].status != Ambiguous
             && rid in s.runs && s.runs[rid] == Reconcile(org, id, Reload(answer))
    ensures history <= longer && Reached(longer).store == Reached(history).store && rid in Reached(longer).runs
    ensures Reached(longer).runs[rid]
         == Reconcile(org, id, ReconcileDone(Reconciled(Reached(history).store.books.txs[id])))
  {
    longer := Play(history, Advance(rid, Choice(Delivered, UnknownError)));
  }

  /** From every reachable state, a reconciliation of an open findable row to which the provider
      answers, naming the row's external id or none, brings that answer about, and answers with the
      row as it then is in the books. */
  lemma UndisturbedReconciliation(history: seq<Action>, rid: Id, org: Id, id: Id, externalId: string,
                                  answer: ProviderStatus)
    returns (longer: seq<Action>)
    requires var s := Reached(history);
             && rid !in s.runs && id in s.store.books.txs && s.store.books.txs[id].org == org
             && Findable(s.store.books.txs[id]) && s.store.books.txs[id].externalId.value != ""
             && s.store.books.txs[id].status == Pending
             && (externalId == "" || Some(externalId) == s.store.books.txs[id].externalId)
    ensures history <= longer
    ensures var s, s' := Reached(history), Reached(longer);
            var row := s.store.books.txs[id].(status := Meaning(answer));
            && s'.store.books.txs == s.store.books.txs[id := row]
            && rid in s'.runs && s'.runs[rid] == Reconcile(org, id, ReconcileDone(Reconciled(row)))
  {
    hide Reached, Findable;
    longer := AsksProvider(history, rid, org, id, externalId, answer);
    if answer != StillPending { longer := AppliesAnswer(longer, rid, org, id, answer); }
    longer := Reloads(longer, rid, org, id, answer);
  }

  /** An answer that names another transaction is refused and changes nothing. */
  lemma OtherIdentityChangesNothing(s: State, rid: Id, externalId: string, status: ProviderStatus, delivery: Delivery)
    requires rid in s.runs && s.runs[rid].Reconcile? && s.runs[rid].rpc.Ask?
    requires externalId != "" && Some(externalId) != s.runs[rid].rpc.seen.externalId
    ensures var s' := Next(s, Advance(rid, Choice(delivery, Accepted(externalId, status))));
            && s'.store == s.store && rid in s'.runs
            && s'.runs[rid] == s.runs[rid].(rpc := ReconcileDone(IdentityConflict))
  {
  }
}
