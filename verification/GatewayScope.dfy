/** Which rows a handler reaches: its own, and none of another organization. */
module GatewayScope {
  import opened Wrappers
  import opened Ledger
  import opened Gateway
  import opened GatewaySafety
  import opened GatewayCredits
  import opened GatewayDeliveries
  import opened GatewayReplies
  import opened GatewayHistories

  function OrgOf(run: Run): Id
    requires !run.Webhook?
  {
    match run
    case Create(req, _, _) => req.org
    case Reconcile(org, _, _) => org
  }

  /** The rows that are a run's own: the one it creates, those its event identifies and agrees with,
      or the one it was asked to reconcile, in its organization. */
  predicate IsOwn(run: Run, id: Id, tx: Tx) {
    match run
    case Create(req, acquired, _) => acquired && id == req.id && Matches(req, tx)
    case Webhook(event, _) => Agrees(tx, event)
    case Reconcile(org, asked, _) => id == asked && tx.org == org
  }

  /** A reconciliation has read its row and may yet change it. */
  predicate Asking(run: Run) {
    run.Reconcile? && (run.rpc.Ask? || run.rpc.StorePayload? || run.rpc.ApplyAnswer?)
  }

  /** What a reconciliation that asks the provider has seen: an open row that the provider can
      identify, and still does by the same id. */
  predicate AsksAbout(tx: Tx, seen: Tx) {
    && !seen.Terminal() && seen.connection.Some? && seen.externalId.Some? && seen.externalId.value != ""
    && tx.connection == seen.connection && tx.externalId == seen.externalId
    && tx.org == seen.org && tx.kind == seen.kind && tx.amount == seen.amount && tx.fee == seen.fee
  }

  ghost predicate ScopeOk(s: Store, run: Run) {
    && (!run.Webhook? && Shown(run).Row? ==> Shown(run).tx.org == OrgOf(run))
    && (Asking(run) || (run.Reconcile? && run.rpc.Reload?) ==>
          run.tx in s.books.txs && s.books.txs[run.tx].org == run.org)
    && (Asking(run) ==> AsksAbout(s.books.txs[run.tx], run.rpc.seen))
  }

  ghost predicate ScopesOk(s: State) {
    forall r <- s.runs :: ScopeOk(s.store, s.runs[r])
  }

  lemma StaysInScope(s: Store, s': Store, run: Run)
    requires ScopeOk(s, run) && StoreEvolves(s, s')
    ensures ScopeOk(s', run)
  {
  }

  lemma CreateScope(s: Store, rid: Id, run: Run, c: Choice)
    requires run.Create? && CreateOk(s, run) && KeysOk(s.keys) && ScopeOk(s, run)
    ensures ScopeOk(StepCreate(s, rid, run, c).store, StepCreate(s, rid, run, c).run)
  {
    hide BeginFor, ApplyStatus, PatchStatus, PatchExternalId, Attempt;
    if run.cpc.Claim? && run.req.Scope() in s.keys { assert KeyRowOk(run.req.Scope(), s.keys[run.req.Scope()]); }
  }

  lemma ReconcileScope(s: Store, run: Run, c: Choice)
    requires run.Reconcile? && RunOk(s, run) && ScopeOk(s, run) && StoreEvolves(s, StepReconcile(s, run, c).store)
    ensures ScopeOk(StepReconcile(s, run, c).store, StepReconcile(s, run, c).run)
  {
    hide ApplyStatus, PatchStatus;
  }

  lemma OwnScope(s: Store, rid: Id, run: Run, c: Choice)
    requires RunOk(s, run) && KeysOk(s.keys) && ScopeOk(s, run)
    requires StoreEvolves(s, Step(s, rid, run, c).store)
    ensures ScopeOk(Step(s, rid, run, c).store, Step(s, rid, run, c).run)
  {
    hide KeysOk, CreateOk, StoreEvolves, StepCreate, StepReconcile, StepWebhook;
    match run
    case Create(_, _, _) => CreateScope(s, rid, run, c);
    case Webhook(_, _) => WebhooksAnswerNoRow(s, run, c);
    case Reconcile(_, _, _) => ReconcileScope(s, run, c);
  }

  lemma WebhooksAnswerNoRow(s: Store, run: Run, c: Choice)
    requires run.Webhook?
    ensures StepWebhook(s, run, c).run.Webhook? && ScopeOk(StepWebhook(s, run, c).store, StepWebhook(s, run, c).run)
  {
    hide ApplyStatus;
  }

  lemma AdvanceScope(s: State, rid: Id, c: Choice)
    requires Inv(s) && rid in s.runs && ScopeOk(s.store, s.runs[rid])
    ensures var s' := Next(s, Advance(rid, c)); ScopeOk(s'.store, s'.runs[rid])
  {
    NextKeepsInv(s, Advance(rid, c));
    RunIsOk(s.store, s.runs, rid);
    hide BooksOk, RunsOk, LogOk, StoreEvolves, Step, ScopeOk, KeysOk, RunOk, OwnersDiffer, HoldersDiffer;
    OwnScope(s.store, rid, s.runs[rid], c);
  }

  lemma ScopeNext(s: State, a: Action, r: Id)
    requires Inv(s) && r in Next(s, a).runs && (r in s.runs ==> ScopeOk(s.store, s.runs[r]))
    ensures ScopeOk(Next(s, a).store, Next(s, a).runs[r])
  {
    var s' := Next(s, a);
    hide Inv, StoreEvolves, Step;
    if r !in s.runs {
      assert Shown(s'.runs[r]) == Zero;
    } else {
      hide ScopeOk;
      if a.Advance? && a.run == r {
        AdvanceScope(s, r, a.choice);
      } else {
        NextKeepsInv(s, a);
        StaysInScope(s.store, s'.store, s.runs[r]);
      }
    }
  }

  lemma ScopesNext(s: State, a: Action)
    requires Inv(s) && ScopesOk(s)
    ensures ScopesOk(Next(s, a))
  {
    hide Inv, ScopeOk, Next;
    forall r <- Next(s, a).runs ensures ScopeOk(Next(s, a).store, Next(s, a).runs[r]) {
      ScopeNext(s, a, r);
    }
  }

  lemma {:induction false} ScopesOverARun(s: State, history: seq<Action>)
    requires Inv(s) && ScopesOk(s)
    ensures ScopesOk(Exec(s, history))
    decreases |history|
  {
    hide Inv, ScopesOk;
    if history != [] {
      NextKeepsInv(s, history[0]);
      ScopesNext(s, history[0]);
      ScopesOverARun(Next(s, history[0]), history[1..]);
    }
  }

  /** A step changes no row but its run's own, and posts no journal but for one of them. */
  ghost predicate TouchesOwn(b: Books, b': Books, run: Run) {
    && (forall id <- b.txs :: id in b'.txs && (b'.txs[id] == b.txs[id] || IsOwn(run, id, b.txs[id])))
    && (forall id <- b'.txs :: id in b.txs || IsOwn(run, id, b'.txs[id]))
    && b.journals <= b'.journals
    && forall i :: |b.journals| <= i < |b'.journals| ==>
         b'.journals[i].tx in b'.txs && IsOwn(run, b'.journals[i].tx, b'.txs[b'.journals[i].tx])
  }

  lemma ApplyTouches(b: Books, id: Id, status: ProviderStatus, run: Run)
    requires id in b.txs && IsOwn(run, id, b.txs[id])
    ensures var r := ApplyStatus(b, id, b.txs[id].kind, status); r.Some? ==> TouchesOwn(b, r.value, run)
  {
    ApplyPostsForItsRow(b, id, b.txs[id].kind, status);
    ApplyKeepsTerms(b, id, status);
    hide ApplyStatus, TouchesOwn;
    var r := ApplyStatus(b, id, b.txs[id].kind, status);
    if r.Some? { WritesOneRow(b, r.value, id, run); }
  }

  lemma ApplyKeepsTerms(b: Books, id: Id, status: ProviderStatus)
    requires id in b.txs
    ensures var r := ApplyStatus(b, id, b.txs[id].kind, status);
            r.Some? ==> id in r.value.txs && r.value.txs[id] == b.txs[id].(status := r.value.txs[id].status)
  {
  }

  /** Writing one row, and posting at most one journal, for it. */
  lemma WritesOneRow(b: Books, b': Books, id: Id, run: Run)
    requires id in b'.txs && b'.txs == b.txs[id := b'.txs[id]] && IsOwn(run, id, b'.txs[id])
    requires id in b.txs ==> IsOwn(run, id, b.txs[id])
    requires b'.journals == b.journals || (|b'.journals| == |b.journals| + 1 && b.journals <= b'.journals
                                           && b'.journals[|b.journals|].tx == id)
    ensures TouchesOwn(b, b', run)
  {
    hide IsOwn;
  }

  lemma BeginTouches(b: Books, req: Request, run: Run)
    requires BooksOk(b) && run.Create? && run.acquired && run.req == req
    ensures var r := BeginFor(b, req); r.Some? ==> TouchesOwn(b, r.value, run)
  {
    BeginEffect(b, req);
    BeginAddsPending(b, req);
    BeginPostsForItsRow(b, req);
    hide BeginFor, BooksOk, BooksEvolve, TouchesOwn, Matches;
    if BeginFor(b, req).Some? { WritesOneRow(b, BeginFor(b, req).value, req.id, run); }
  }

  lemma BeginPostsForItsRow(b: Books, req: Request)
    ensures var r := BeginFor(b, req);
            r.Some? ==> r.value.journals == b.journals
                        || (|r.value.journals| == |b.journals| + 1 && b.journals <= r.value.journals
                            && r.value.journals[|b.journals|].tx == req.id)
  {
    hide Balance, Trail;
  }

  lemma CreateTouches(s: Store, rid: Id, run: Run, c: Choice)
    requires BooksOk(s.books) && run.Create? && RunOk(s, run)
    ensures TouchesOwn(s.books, Step(s, rid, run, c).store.books, run)
  {
    hide ApplyStatus, BeginFor, BooksOk;
    var req, pc := run.req, run.cpc;
    if pc == Begin { BeginTouches(s.books, req, run); }
    if pc == Reject { ApplyTouches(s.books, req.id, Refused, run); }
    if pc.ApplyReported? { ApplyTouches(s.books, req.id, pc.reported, run); }
  }

  lemma StepTouches(s: Store, rid: Id, run: Run, c: Choice)
    requires BooksOk(s.books) && RunOk(s, run) && DeliveryOk(s, run) && ScopeOk(s, run)
    ensures TouchesOwn(s.books, Step(s, rid, run, c).store.books, run)
  {
    hide ApplyStatus, BooksOk, StepCreate;
    match run
    case Create(_, _, _) => CreateTouches(s, rid, run, c);
    case Webhook(event, pc) =>
      hide CreateOk;
      if pc.ApplyEvent? { ApplyTouches(s.books, pc.tx, event.status, run); }
    case Reconcile(_, tx, pc) =>
      hide CreateOk;
      if pc.ApplyAnswer? { ApplyTouches(s.books, tx, pc.status, run); }
  }

  /** Over every history, whatever step a handler takes next changes, adds and posts for nothing but
      its own row. */
  lemma HandlersTouchOnlyTheirRows(history: seq<Action>, rid: Id, c: Choice)
    requires rid in Reached(history).runs
    ensures TouchesOwn(Reached(history).store.books, Next(Reached(history), Advance(rid, c)).store.books,
                       Reached(history).runs[rid])
  {
    InitialInv();
    ExecKeepsInv(INITIAL, history);
    DeliveriesOverARun(INITIAL, history);
    ScopesOverARun(INITIAL, history);
    var s := Reached(history);
    hide Reached, ScopeOk, DeliveryOk, TouchesOwn, Step, RunOk, BooksOk;
    RunIsOk(s.store, s.runs, rid);
    StepTouches(s.store, rid, s.runs[rid], c);
  }

  /** Over every history, a create or reconcile request is answered with no transaction of another
      organization; and a reconciliation asks about, and applies an answer to, a row of its own
      organization that was open when read and that the provider can identify. */
  lemma AnswersStayInTheOrganization(history: seq<Action>, rid: Id)
    requires rid in Reached(history).runs && !Reached(history).runs[rid].Webhook?
    ensures var s, run := Reached(history), Reached(history).runs[rid];
            && (Shown(run).Row? ==> Shown(run).tx.org == OrgOf(run))
            && (Asking(run) ==> run.tx in s.store.books.txs && s.store.books.txs[run.tx].org == run.org
                                && AsksAbout(s.store.books.txs[run.tx], run.rpc.seen))
  {
    InitialInv();
    ScopesOverARun(INITIAL, history);
    assert ScopeOk(Reached(history).store, Reached(history).runs[rid]);
  }
}
