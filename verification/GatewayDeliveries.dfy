/** What an acknowledged webhook delivery has done. */
module GatewayDeliveries {
  import opened Wrappers
  import opened Ledger
  import opened Gateway
  import opened GatewaySafety
  import opened GatewayCredits
  import opened GatewayHistories

  /** The row an event speaks of. */
  predicate Identified(tx: Tx, e: Event) {
    tx.connection == Some(e.connection) && tx.externalId == Some(e.externalId)
  }

  /** The event may be applied to that row: kind and amount do not contradict it. */
  predicate Agrees(tx: Tx, e: Event) {
    Identified(tx, e) && (e.kind.Some? ==> tx.kind == e.kind.value) && (e.amount > 0 ==> tx.amount == e.amount)
  }

  /** A row on which a reported outcome has taken effect. A paid pix_in may have been overwritten by
      a later refusal. */
  predicate Effected(tx: Tx, status: ProviderStatus) {
    match status
    case StillPending => true
    case Paid => tx.status == Succeeded || (tx.kind == PixIn && tx.status == Failed)
    case Refused => tx.status == Failed
  }

  ghost predicate HasEffected(txs: map<Id, Tx>, e: Event) {
    exists id <- txs :: Agrees(txs[id], e) && Effected(txs[id], e.status)
  }

  predicate IsProcessed(s: Store, e: Event) {
    EvidenceKey(e.connection, e.eventId) in s.evidence && s.evidence[EvidenceKey(e.connection, e.eventId)]
  }

  predicate Acknowledged(run: Run) {
    run.Webhook? && (run.wpc.Finalize? || run.wpc == WebhookDone(Received))
  }

  ghost predicate DeliveryOk(s: Store, run: Run) {
    && (run.Webhook? && run.wpc.ApplyEvent? ==>
          && run.wpc.tx in s.books.txs && s.books.txs[run.wpc.tx].kind == run.wpc.kind
          && Agrees(s.books.txs[run.wpc.tx], run.event))
    && (Acknowledged(run) ==> HasEffected(s.books.txs, run.event))
    && (run.Webhook? && run.wpc == WebhookDone(Received) ==> IsProcessed(s, run.event))
    && (run.Reconcile? && run.rpc.Reload? ==>
          run.tx in s.books.txs && Effected(s.books.txs[run.tx], run.rpc.answer))
  }

  ghost predicate DeliveriesOk(s: State) {
    forall r <- s.runs :: DeliveryOk(s.store, s.runs[r])
  }

  /** The call for a reported outcome, when it succeeds, brings it about. */
  lemma ApplyEffects(b: Books, id: Id, status: ProviderStatus)
    requires id in b.txs
    ensures var r := ApplyStatus(b, id, b.txs[id].kind, status);
            r.Some? ==> id in r.value.txs && Effected(r.value.txs[id], status)
                        && r.value.txs[id].connection == b.txs[id].connection
                        && r.value.txs[id].externalId == b.txs[id].externalId
                        && r.value.txs[id].kind == b.txs[id].kind && r.value.txs[id].amount == b.txs[id].amount
  {
  }

  /** A step of the delivery itself. */
  lemma DeliveryStep(s: Store, rid: Id, run: Run, c: Choice)
    requires DeliveryOk(s, run) && RunOk(s, run)
    ensures DeliveryOk(Step(s, rid, run, c).store, Step(s, rid, run, c).run)
  {
    hide ApplyStatus, BeginFor;
    match run
    case Create(_, _, _) =>
    case Webhook(e, pc) =>
      if pc.Lookup? { FoundIsRecorded(s.books.txs, s.books.order, e.connection, e.externalId); }
      if pc.ApplyEvent? { ApplyEffects(s.books, pc.tx, e.status); }
    case Reconcile(_, tx, pc) =>
      if pc.ApplyAnswer? { ApplyEffects(s.books, tx, pc.status); }
  }

  /** No step undoes an effect, or what makes a row agree with an event. */
  lemma EffectStays(s: State, a: Action, id: Id, e: Event, status: ProviderStatus)
    requires Inv(s) && id in s.store.books.txs
    ensures var txs, txs' := s.store.books.txs, Next(s, a).store.books.txs;
            && id in txs' && txs'[id].kind == txs[id].kind
            && (Agrees(txs[id], e) ==> Agrees(txs'[id], e))
            && (Effected(txs[id], status) ==> Effected(txs'[id], status))
  {
    NextKeepsInv(s, a);
    if s.store.books.txs[id].kind == PixIn { StepMoves(s, a, id); }
    hide Inv, Next, DeliversRefusal, Credits;
  }

  lemma OtherDeliveriesStay(s: State, a: Action, run: Run, e: Event)
    requires Inv(s) && DeliveryOk(s.store, run) && (run.Webhook? ==> run.event == e)
    ensures DeliveryOk(Next(s, a).store, run)
  {
    NextKeepsInv(s, a);
    hide Inv, Next, Agrees, Effected, BooksEvolve;
    if run.Webhook? && run.wpc.ApplyEvent? { EffectStays(s, a, run.wpc.tx, e, e.status); }
    if run.Reconcile? && run.rpc.Reload? { EffectStays(s, a, run.tx, e, run.rpc.answer); }
    if Acknowledged(run) {
      var txs := s.store.books.txs;
      var id :| id in txs && Agrees(txs[id], e) && Effected(txs[id], e.status);
      EffectStays(s, a, id, e, e.status);
    }
  }

  const NO_EVENT := Event(0, "", "", None, StillPending, 0)

  lemma DeliveriesNext(s: State, a: Action)
    requires Inv(s) && DeliveriesOk(s)
    ensures DeliveriesOk(Next(s, a))
  {
    var s' := Next(s, a);
    forall r <- s'.runs ensures DeliveryOk(s'.store, s'.runs[r]) {
      if a.Advance? && a.run == r {
        if r in s.runs {
          RunIsOk(s.store, s.runs, r);
          DeliveryStep(s.store, r, s.runs[r], a.choice);
        }
      } else if r in s.runs {
        hide Inv, DeliveryOk;
        OtherDeliveriesStay(s, a, s.runs[r], if s.runs[r].Webhook? then s.runs[r].event else NO_EVENT);
      }
    }
  }

  lemma {:induction false} DeliveriesOverARun(s: State, history: seq<Action>)
    requires Inv(s) && DeliveriesOk(s)
    ensures DeliveriesOk(Exec(s, history))
    decreases |history|
  {
    hide Inv, DeliveriesOk;
    if history != [] {
      NextKeepsInv(s, history[0]);
      DeliveriesNext(s, history[0]);
      DeliveriesOverARun(Next(s, history[0]), history[1..]);
    }
  }

  /** Over every history, a delivery that is acknowledged, or about to be, has taken effect: a row
      that its event identifies and agrees with is terminal, failed if it was refused, and succeeded
      if it is an outbound payment that was paid. Once it is answered, the event is processed. */
  lemma AcknowledgedDeliveryTookEffect(history: seq<Action>, rid: Id) returns (id: Id)
    requires rid in Reached(history).runs && Acknowledged(Reached(history).runs[rid])
    ensures var run, txs := Reached(history).runs[rid], Reached(history).store.books.txs; var e := run.event;
            && id in txs && Agrees(txs[id], e)
            && (e.status != StillPending ==> txs[id].Terminal())
            && (e.status == Refused ==> txs[id].status == Failed)
            && (e.status == Paid && txs[id].Outbound() ==> txs[id].status == Succeeded)
            && (run.wpc == WebhookDone(Received) ==> IsProcessed(Reached(history).store, e))
  {
    InitialInv();
    DeliveriesOverARun(INITIAL, history);
    var s := Reached(history);
    assert DeliveryOk(s.store, s.runs[rid]);
    id :| id in s.store.books.txs && Agrees(s.store.books.txs[id], s.runs[rid].event)
          && Effected(s.store.books.txs[id], s.runs[rid].event.status);
  }

  /** Over every history, when a reconciliation reads its row again, the provider's answer has taken
      effect on it; so it has in the row the reconciliation answers with. */
  lemma ReconciledAnswerTookEffect(history: seq<Action>, rid: Id, c: Choice)
    requires var runs := Reached(history).runs; rid in runs && runs[rid].Reconcile? && runs[rid].rpc.Reload?
    ensures var s, run := Reached(history), Reached(history).runs[rid];
            && run.tx in s.store.books.txs && Effected(s.store.books.txs[run.tx], run.rpc.answer)
            && var s' := Next(s, Advance(rid, c));
               && rid in s'.runs && s'.runs[rid].Reconcile? && s'.store == s.store
               && (s'.runs[rid].rpc.ReconcileDone? && s'.runs[rid].rpc.reply.Reconciled? ==>
                     s'.runs[rid].rpc.reply.tx == s.store.books.txs[run.tx])
  {
    InitialInv();
    DeliveriesOverARun(INITIAL, history);
    assert DeliveryOk(Reached(history).store, Reached(history).runs[rid]);
  }

  /** A delivery whose kind or amount contradicts the row it finds is refused and changes nothing. */
  lemma ContradictionIsRefused(s: State, rid: Id, id: Id)
    requires rid in s.runs && s.runs[rid].Webhook? && s.runs[rid].wpc == Lookup && id in s.store.books.txs
    requires var e := s.runs[rid].event;
             && FindByExternalId(s.store.books.txs, s.store.books.order, e.connection, e.externalId) == Some(id)
             && !Agrees(s.store.books.txs[id], e)
    ensures var s' := Next(s, Advance(rid, Choice(Delivered, UnknownError)));
            && s'.store == s.store && rid in s'.runs
            && s'.runs[rid] == Webhook(s.runs[rid].event, WebhookDone(EventConflict))
  {
    FoundIsRecorded(s.store.books.txs, s.store.books.order, s.runs[rid].event.connection, s.runs[rid].event.externalId);
  }
}
