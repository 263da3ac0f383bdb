/** The invariant of the payment handlers, and its proof for every action. */
module GatewaySafety {
  import opened Wrappers
  import opened Ledger
  import opened Gateway
  import Pricing

  // --- the invariant ----------------------------------------------------------

  /** Between a successful begin and the recording of the external id, a run is the only one
      that can change its row: nobody can find the row yet. */
  predicate Holding(run: Run) {
    run.Create? && (run.cpc.CallProvider? || run.cpc.Reject? || run.cpc.MarkAmbiguous? || run.cpc.Record?)
  }

  predicate Owns(run: Run) {
    run.Create? && run.acquired
  }

  predicate Matches(req: Request, tx: Tx) {
    && tx.org == req.org && tx.kind == req.kind && tx.account == req.account && tx.amount == req.amount
    && tx.provider == req.provider && tx.connection == req.connection
  }

  ghost predicate CreateOk(s: Store, run: Run)
    requires run.Create?
  {
    var req, key, pc := run.req, run.req.Scope(), run.cpc;
    && (run.acquired ==>
          && key in s.keys && s.keys[key].fingerprint == req.fingerprint && s.keys[key].resource == req.id
          && (!pc.CreateDone? ==> s.keys[key].status == Processing))
    && (pc.Claim? ==> !run.acquired)
    && (!pc.Claim? && !pc.CreateDone? ==> run.acquired)
    && (!pc.Claim? && !pc.CreateDone? && !pc.Begin? ==> req.id in s.books.txs && Matches(req, s.books.txs[req.id]))
    && (Holding(run) ==> s.books.txs[req.id].status == Pending && s.books.txs[req.id].externalId.None?)
    && (pc.ApplyReported? ==> s.books.txs[req.id].externalId.Some?)
    && (pc.FetchResult? ==> pc.outcome != Processing)
    && (pc.Finish? ==> pc.outcome != Processing && (pc.outcome == KeySucceeded ==> pc.snapshot.Row?)
                       && (pc.snapshot.Row? ==> pc.snapshot.id == req.id && Matches(req, pc.snapshot.tx)))
  }

  /** A row some webhook or reconciliation is about to change: it has a connection and an
      external id. */
  ghost predicate Reachable(s: Store, id: Id, kind: Kind) {
    && id in s.books.txs && s.books.txs[id].kind == kind
    && s.books.txs[id].connection.Some? && s.books.txs[id].externalId.Some?
  }

  ghost predicate RunOk(s: Store, run: Run) {
    match run
    case Create(_, _, _) => CreateOk(s, run)
    case Webhook(e, pc) =>
      && (pc.Lookup? || pc.ApplyEvent? || pc.Finalize? ==> EvidenceKey(e.connection, e.eventId) in s.evidence)
      && (pc.ApplyEvent? ==> Reachable(s, pc.tx, pc.kind))
    case Reconcile(_, tx, pc) =>
      && !pc.ResetPending?
      && (pc.Ask? || pc.StorePayload? || pc.ApplyAnswer? ==>
          Reachable(s, tx, pc.seen.kind) && pc.seen.status != Ambiguous)
      && (pc.Reload? ==> tx in s.books.txs && s.books.txs[tx].externalId.Some?)
      && (pc.ReconcileDone? ==> !pc.reply.Unresolved?)
  }

  ghost predicate RunsOk(s: Store, runs: map<Id, Run>) {
    forall r <- runs :: RunOk(s, runs[r])
  }

  ghost predicate OwnersDiffer(runs: map<Id, Run>) {
    forall x <- runs, y <- runs :: x != y && Owns(runs[x]) && Owns(runs[y]) ==>
        runs[x].req.Scope() != runs[y].req.Scope()
  }

  ghost predicate HoldersDiffer(runs: map<Id, Run>) {
    forall x <- runs, y <- runs :: x != y && Holding(runs[x]) && Holding(runs[y]) ==> runs[x].req.id != runs[y].req.id
  }

  ghost predicate KeyRowOk(key: Key, row: KeyRow) {
    row.status != Processing ==>
      && row.response.Some?
      && (row.status == KeySucceeded ==> row.response.value.Row?)
      && (row.response.value.Row? ==>
            row.response.value.id == row.resource && row.response.value.tx.org == key.org
            && row.response.value.tx.kind == key.operation)
  }

  ghost predicate KeysOk(keys: map<Key, KeyRow>) {
    forall k <- keys :: KeyRowOk(k, keys[k])
  }

  ghost predicate ByOwner(s: State, rid: Id, key: Key, tx: Id) {
    && rid in s.runs && Owns(s.runs[rid]) && s.runs[rid].req.Scope() == key && s.runs[rid].req.id == tx
    && !s.runs[rid].cpc.Begin?
  }

  ghost predicate ObservationOk(s: State, o: Observation) {
    match o
    case Began(rid, key, tx) => ByOwner(s, rid, key, tx)
    case Called(rid, key, tx) => ByOwner(s, rid, key, tx) && !s.runs[rid].cpc.CallProvider?
    case Answered(_, key, fingerprint, response) =>
      && key in s.store.keys && s.store.keys[key].fingerprint == fingerprint
      && (s.store.keys[key].status == KeySucceeded || s.store.keys[key].status == FailedFinal)
      && s.store.keys[key].response == response
  }

  predicate SameAct(x: Observation, y: Observation) {
    (x.Began? && y.Began? && x.run == y.run) || (x.Called? && y.Called? && x.run == y.run)
  }

  ghost predicate LogOk(s: State) {
    && (forall i :: 0 <= i < |s.log| ==> ObservationOk(s, s.log[i]))
    && (forall i, j :: 0 <= i < j < |s.log| ==> !SameAct(s.log[i], s.log[j]))
  }

  ghost predicate Inv(s: State) {
    && BooksOk(s.store.books)
    && RunsOk(s.store, s.runs)
    && OwnersDiffer(s.runs)
    && HoldersDiffer(s.runs)
    && KeysOk(s.store.keys)
    && LogOk(s)
  }

  // --- what one step may change ---------------------------------------------------

  /** Economics are frozen, an external id is written once, a terminal outbound row is final. */
  predicate RowEvolves(tx: Tx, tx': Tx) {
    && tx' == tx.(status := tx'.status, externalId := tx'.externalId)
    && (tx.externalId.Some? ==> tx'.externalId == tx.externalId)
    && (tx.Outbound() && tx.Terminal() ==> tx' == tx)
  }

  ghost predicate BooksEvolve(b: Books, b': Books) {
    && (forall id <- b.txs :: id in b'.txs && RowEvolves(b.txs[id], b'.txs[id]))
    && b.journals <= b'.journals
  }

  ghost predicate StoreEvolves(s: Store, s': Store) {
    && BooksEvolve(s.books, s'.books)
    && (forall k <- s.keys :: k in s'.keys && s'.keys[k].fingerprint == s.keys[k].fingerprint
                              && s'.keys[k].resource == s.keys[k].resource)
    && (forall e <- s.evidence :: e in s'.evidence && (s.evidence[e] ==> s'.evidence[e]))
  }

  /** A step changes a row only through its external id or while holding it, and a key row only
      when its owner finishes. */
  ghost predicate OnlyTouches(s: Store, s': Store, run: Run) {
    && (forall id <- s.books.txs :: id in s'.books.txs && s'.books.txs[id] != s.books.txs[id] ==>
          s.books.txs[id].externalId.Some? || (Holding(run) && id == run.req.id))
    && (forall k <- s.keys :: k in s'.keys && s'.keys[k] != s.keys[k] ==>
          Owns(run) && run.cpc.Finish? && k == run.req.Scope())
  }

  /** What one database call on one row does to the books. */
  ghost predicate ChangesOnly(b: Books, b': Books, id: Id) {
    && BooksEvolve(b, b')
    && b'.txs.Keys == b.txs.Keys
    && (forall x <- b.txs :: x != id ==> b'.txs[x] == b.txs[x])
  }

  lemma ApplyStatusEffect(b: Books, id: Id, kind: Kind, status: ProviderStatus)
    requires BooksOk(b) && id in b.txs && b.txs[id].kind == kind && b.txs[id].status != Ambiguous
    ensures var r := ApplyStatus(b, id, kind, status);
            r.Some? ==> BooksOk(r.value) && ChangesOnly(b, r.value, id)
  {
    hide BooksOk;
    SettleKeepsBooks(b, id);
    CompleteKeepsBooks(b, id);
    FailKeepsBooks(b, id);
    if kind == PixIn { PatchStatusKeepsBooks(b, id, Failed); }
  }

  lemma BeginEffect(b: Books, req: Request)
    requires BooksOk(b)
    ensures var r := BeginFor(b, req);
            r.Some? ==> BooksOk(r.value) && BooksEvolve(b, r.value) && req.id !in b.txs && req.id in r.value.txs
                        && Matches(req, r.value.txs[req.id]) && r.value.txs[req.id].status == Pending
                        && r.value.txs[req.id].externalId.None?
                        && (forall x <- b.txs :: r.value.txs[x] == b.txs[x])
  {
    hide BooksOk;
    BeginPixInKeepsBooks(b, req.id, req.org, req.account, req.provider, req.connection, req.amount);
    BeginOutboundKeepsBooks(b, req.id, req.org, req.account, req.kind, req.provider, req.connection, req.amount);
  }

  lemma RecordEffect(b: Books, id: Id, externalId: string)
    requires BooksOk(b) && id in b.txs && b.txs[id].status == Pending && b.txs[id].externalId.None?
    ensures var r := PatchExternalId(b, id, externalId);
            r.Some? ==> BooksOk(r.value) && ChangesOnly(b, r.value, id) && r.value.txs[id].externalId.Some?
  {
    hide BooksOk;
    PatchExternalIdKeepsBooks(b, id, externalId);
  }

  lemma MarkEffect(b: Books, id: Id)
    requires BooksOk(b) && id in b.txs && b.txs[id].status == Pending && b.txs[id].externalId.None?
    ensures BooksOk(PatchStatus(b, id, Ambiguous)) && ChangesOnly(b, PatchStatus(b, id, Ambiguous), id)
  {
    hide BooksOk;
    if !b.txs[id].Outbound() { PendingPixInHasNoJournal(b, id); }
    PatchStatusKeepsBooks(b, id, Ambiguous);
  }

  lemma RecordedIsNotAmbiguous(b: Books, id: Id)
    requires BooksOk(b) && id in b.txs && b.txs[id].externalId.Some?
    ensures b.txs[id].status != Ambiguous
  {
  }

  lemma FoundIsRecorded(txs: map<Id, Tx>, order: seq<Id>, connection: Id, externalId: string)
    ensures var found := FindByExternalId(txs, order, connection, externalId);
            found.Some? ==> found.value in order && found.value in txs
                            && txs[found.value].externalId == Some(externalId)
                            && txs[found.value].connection == Some(connection)
  {
  }

  // --- one step of each handler ---------------------------------------------------------

  ghost predicate StepOk(s: Store, rid: Id, run: Run, c: Choice) {
    var e := Step(s, rid, run, c);
    && BooksOk(e.store.books) && KeysOk(e.store.keys) && RunOk(e.store, e.run)
    && StoreEvolves(s, e.store) && OnlyTouches(s, e.store, run)
  }

  /** Claiming a key that has no row, or meeting the row that is there. */
  lemma ClaimStep(s: Store, rid: Id, run: Run, c: Choice)
    requires run.Create? && BooksOk(s.books) && KeysOk(s.keys) && CreateOk(s, run)
    requires run.cpc.Claim? || run.cpc.CreateDone?
    ensures StepOk(s, rid, run, c)
  {
    hide BooksOk;
  }

  /** Storing the response. */
  lemma FinishStep(s: Store, rid: Id, run: Run, c: Choice)
    requires run.Create? && BooksOk(s.books) && KeysOk(s.keys) && CreateOk(s, run)
    requires run.cpc.Finish?
    ensures StepOk(s, rid, run, c)
  {
    hide BooksOk;
  }

  /** The steps that read, or that call the provider. */
  lemma ReadStep(s: Store, rid: Id, run: Run, c: Choice)
    requires run.Create? && BooksOk(s.books) && KeysOk(s.keys) && CreateOk(s, run)
    requires run.cpc.CallProvider? || run.cpc.FetchResult?
    ensures StepOk(s, rid, run, c)
  {
    hide BooksOk, KeysOk;
  }

  /** Reserving, before the provider hears of the payment. */
  lemma BeginStep(s: Store, rid: Id, run: Run, c: Choice)
    requires run.Create? && BooksOk(s.books) && KeysOk(s.keys) && CreateOk(s, run)
    requires run.cpc.Begin?
    ensures StepOk(s, rid, run, c)
  {
    hide BooksOk, KeysOk;
    BeginEffect(s.books, run.req);
  }

  /** The three outcomes of the provider call, while nobody else can find the row. */
  lemma RejectStep(s: Store, rid: Id, run: Run, c: Choice)
    requires run.Create? && BooksOk(s.books) && KeysOk(s.keys) && CreateOk(s, run)
    requires run.cpc.Reject?
    ensures StepOk(s, rid, run, c)
  {
    hide BooksOk, KeysOk;
    ApplyStatusEffect(s.books, run.req.id, run.req.kind, Refused);
  }

  lemma MarkStep(s: Store, rid: Id, run: Run, c: Choice)
    requires run.Create? && BooksOk(s.books) && KeysOk(s.keys) && CreateOk(s, run)
    requires run.cpc.MarkAmbiguous?
    ensures StepOk(s, rid, run, c)
  {
    hide BooksOk, KeysOk, PatchStatus;
    MarkEffect(s.books, run.req.id);
  }

  lemma RecordStep(s: Store, rid: Id, run: Run, c: Choice)
    requires run.Create? && BooksOk(s.books) && KeysOk(s.keys) && CreateOk(s, run)
    requires run.cpc.Record?
    ensures StepOk(s, rid, run, c)
  {
    hide BooksOk, KeysOk;
    RecordEffect(s.books, run.req.id, run.cpc.externalId);
  }

  /** Applying the status of the create call, racing with webhooks and reconciliations. */
  lemma ReportedStep(s: Store, rid: Id, run: Run, c: Choice)
    requires run.Create? && BooksOk(s.books) && KeysOk(s.keys) && CreateOk(s, run)
    requires run.cpc.ApplyReported?
    ensures StepOk(s, rid, run, c)
  {
    hide BooksOk, KeysOk;
    RecordedIsNotAmbiguous(s.books, run.req.id);
    ApplyStatusEffect(s.books, run.req.id, run.req.kind, run.cpc.reported);
  }

  lemma WebhookStep(s: Store, rid: Id, run: Run, c: Choice)
    requires run.Webhook? && BooksOk(s.books) && KeysOk(s.keys) && RunOk(s, run)
    ensures StepOk(s, rid, run, c)
  {
    hide BooksOk;
    match run.wpc
    case Lookup => FoundIsRecorded(s.books.txs, s.books.order, run.event.connection, run.event.externalId);
    case ApplyEvent(id, kind) =>
      RecordedIsNotAmbiguous(s.books, id);
      ApplyStatusEffect(s.books, id, kind, run.event.status);
    case _ =>
  }

  lemma ReconcileStep(s: Store, rid: Id, run: Run, c: Choice)
    requires run.Reconcile? && BooksOk(s.books) && KeysOk(s.keys) && RunOk(s, run)
    ensures StepOk(s, rid, run, c)
  {
    hide BooksOk;
    match run.rpc
    case FetchRow =>
      if run.tx in s.books.txs && s.books.txs[run.tx].externalId.Some? {
        RecordedIsNotAmbiguous(s.books, run.tx);
      }
    case ApplyAnswer(seen, status) =>
      RecordedIsNotAmbiguous(s.books, run.tx);
      ApplyStatusEffect(s.books, run.tx, seen.kind, status);
    case Reload(_) => RecordedIsNotAmbiguous(s.books, run.tx);
    case _ =>
  }

  lemma RunStep(s: Store, rid: Id, run: Run, c: Choice)
    requires BooksOk(s.books) && KeysOk(s.keys) && RunOk(s, run)
    ensures StepOk(s, rid, run, c)
  {
    hide BooksOk, KeysOk, StepOk;
    match run
    case Create(_, _, pc) =>
      if pc.Claim? || pc.CreateDone? { ClaimStep(s, rid, run, c); }
      else if pc.Begin? { BeginStep(s, rid, run, c); }
      else if pc.CallProvider? || pc.FetchResult? { ReadStep(s, rid, run, c); }
      else if pc.Reject? { RejectStep(s, rid, run, c); }
      else if pc.MarkAmbiguous? { MarkStep(s, rid, run, c); }
      else if pc.Record? { RecordStep(s, rid, run, c); }
      else if pc.ApplyReported? { ReportedStep(s, rid, run, c); }
      else { FinishStep(s, rid, run, c); }
    case Webhook(_, _) => WebhookStep(s, rid, run, c);
    case Reconcile(_, _, _) => ReconcileStep(s, rid, run, c);
  }

  /** Rely: a run keeps its claim while another one steps. */
  lemma OtherRunsKeep(s: Store, s': Store, mover: Run, other: Run)
    requires RunOk(s, other) && StoreEvolves(s, s') && OnlyTouches(s, s', mover)
    requires Owns(mover) && Owns(other) ==> mover.req.Scope() != other.req.Scope()
    requires Holding(mover) && Holding(other) ==> mover.req.id != other.req.id
    ensures RunOk(s', other)
  {
  }

  // --- the invariant over actions --------------------------------------------------------

  lemma RunsKeep(s: State, rid: Id, c: Choice)
    requires Inv(s) && rid in s.runs
    ensures RunsOk(Next(s, Advance(rid, c)).store, Next(s, Advance(rid, c)).runs)
  {
    hide BooksOk, LogOk, KeysOk;
    var e := Step(s.store, rid, s.runs[rid], c);
    RunStep(s.store, rid, s.runs[rid], c);
    forall r <- s.runs | r != rid ensures RunOk(e.store, s.runs[r]) {
      OtherRunsKeep(s.store, e.store, s.runs[rid], s.runs[r]);
    }
  }

  /** A claim is granted only on a key that has no row. */
  lemma OwnersStayDifferent(s: State, rid: Id, c: Choice)
    requires Inv(s) && rid in s.runs
    ensures OwnersDiffer(Next(s, Advance(rid, c)).runs)
  {
    hide BooksOk, LogOk, KeysOk, HoldersDiffer, BeginFor, ApplyStatus, PatchExternalId;
    var run := s.runs[rid];
    var e := Step(s.store, rid, run, c);
    assert Owns(e.run) ==> e.run.req == run.req && (Owns(run) || run.req.Scope() !in s.store.keys);
  }

  /** A row is begun only on an id that has no row. */
  lemma HoldersStayDifferent(s: State, rid: Id, c: Choice)
    requires Inv(s) && rid in s.runs
    ensures HoldersDiffer(Next(s, Advance(rid, c)).runs)
  {
    hide BooksOk, LogOk, KeysOk, OwnersDiffer, BeginFor, ApplyStatus, PatchExternalId;
    var run := s.runs[rid];
    var e := Step(s.store, rid, run, c);
    if Holding(e.run) && !Holding(run) { BeginEffect(s.store.books, run.req); }
    assert Holding(e.run) ==> e.run.req == run.req && (Holding(run) || run.req.id !in s.store.books.txs);
  }

  lemma ObservationKeeps(s: State, rid: Id, c: Choice, o: Observation)
    requires Inv(s) && rid in s.runs && ObservationOk(s, o)
    ensures ObservationOk(Next(s, Advance(rid, c)), o)
  {
    hide BooksOk, KeysOk, LogOk, RunsOk, OwnersDiffer, HoldersDiffer, BooksEvolve;
    RunIsOk(s.store, s.runs, rid);
    RunStep(s.store, rid, s.runs[rid], c);
  }

  lemma LogKeeps(s: State, rid: Id, c: Choice)
    requires Inv(s) && rid in s.runs
    ensures LogOk(Next(s, Advance(rid, c)))
  {
    hide BooksOk, KeysOk, OwnersDiffer, HoldersDiffer, RunsOk;
    var s' := Next(s, Advance(rid, c));
    RunIsOk(s.store, s.runs, rid);
    forall i | 0 <= i < |s'.log| ensures ObservationOk(s', s'.log[i]) {
      if i < |s.log| { ObservationKeeps(s, rid, c, s.log[i]); }
    }
    forall i, j | 0 <= i < j < |s'.log| ensures !SameAct(s'.log[i], s'.log[j]) {
      assert ObservationOk(s, s.log[i]);
    }
  }

  lemma AdvanceKeepsInv(s: State, rid: Id, c: Choice)
    requires Inv(s) && rid in s.runs
    ensures Inv(Next(s, Advance(rid, c)))
    ensures StoreEvolves(s.store, Next(s, Advance(rid, c)).store)
    ensures OnlyTouches(s.store, Next(s, Advance(rid, c)).store, s.runs[rid])
  {
    hide BooksOk, KeysOk, LogOk, RunsOk, OwnersDiffer, HoldersDiffer, StoreEvolves, OnlyTouches;
    assert RunOk(s.store, s.runs[rid]) by { RunIsOk(s.store, s.runs, rid); }
    RunsKeep(s, rid, c);
    OwnersStayDifferent(s, rid, c);
    HoldersStayDifferent(s, rid, c);
    LogKeeps(s, rid, c);
    RunStep(s.store, rid, s.runs[rid], c);
  }

  lemma RunIsOk(s: Store, runs: map<Id, Run>, rid: Id)
    requires RunsOk(s, runs) && rid in runs
    ensures RunOk(s, runs[rid])
  {
  }

  lemma AccountsKeepBooks(b: Books, accounts: map<Id, Account>)
    requires BooksOk(b)
    ensures BooksOk(b.(accounts := accounts))
  {
    hide PricingOk, RowsOk, IdentitiesUnique, NoOverdraft;
  }

  lemma RuleKeepsBooks(b: Books, k: (Id, Kind), rule: Pricing.Rule)
    requires BooksOk(b) && Pricing.Accepted(rule)
    ensures BooksOk(b.(pricing := b.pricing[k := rule]))
  {
    hide RowsOk, IdentitiesUnique, NoOverdraft;
  }

  /** RunOk and ObservationOk read the rows, the keys and the evidence, not the settings. */
  lemma SettingsKeepTheRest(s: State, s': State)
    requires RunsOk(s.store, s.runs) && LogOk(s)
    requires s' == s.(store := s.store.(books := s'.store.books))
    requires s'.store.books.txs == s.store.books.txs
    ensures RunsOk(s'.store, s'.runs) && LogOk(s')
  {
    forall i | 0 <= i < |s'.log| ensures ObservationOk(s', s'.log[i]) {
      assert ObservationOk(s, s.log[i]);
    }
    forall r <- s'.runs ensures RunOk(s'.store, s'.runs[r]) {
      assert RunOk(s.store, s.runs[r]);
    }
  }

  lemma SettingsKeepInv(s: State, a: Action)
    requires Inv(s) && (a.SetAccount? || a.SetPricing?)
    ensures Inv(Next(s, a)) && StoreEvolves(s.store, Next(s, a).store)
  {
    hide BooksOk, OwnersDiffer, HoldersDiffer, KeysOk, RunsOk, LogOk;
    var b, s' := s.store.books, Next(s, a);
    AccountsKeepBooks(b, s'.store.books.accounts);
    if a.SetPricing? && Pricing.Accepted(a.rule) {
      RuleKeepsBooks(b, (a.org, a.kind), a.rule);
    }
    SettingsKeepTheRest(s, s');
  }

  lemma NewRunKeepsLog(s: State, rid: Id, run: Run)
    requires LogOk(s) && rid !in s.runs
    ensures LogOk(s.(runs := s.runs[rid := run]))
  {
    var s' := s.(runs := s.runs[rid := run]);
    forall i | 0 <= i < |s'.log| ensures ObservationOk(s', s'.log[i]) {
      assert ObservationOk(s, s.log[i]);
    }
  }

  lemma NewRunKeepsInv(s: State, rid: Id, run: Run)
    requires Inv(s) && rid !in s.runs && !Owns(run) && !Holding(run) && RunOk(s.store, run)
    ensures Inv(s.(runs := s.runs[rid := run]))
  {
    hide BooksOk, KeysOk, LogOk, RunOk, Owns, Holding;
    NewRunKeepsLog(s, rid, run);
  }

  lemma StartKeepsInv(s: State, a: Action)
    requires Inv(s) && (a.StartCreate? || a.StartWebhook? || a.StartReconcile?)
    ensures Inv(Next(s, a)) && StoreEvolves(s.store, Next(s, a).store)
  {
    hide Inv;
    match a
    case StartCreate(rid, req) => if rid !in s.runs { NewRunKeepsInv(s, rid, Create(req, false, Claim)); }
    case StartWebhook(rid, event) => if rid !in s.runs { NewRunKeepsInv(s, rid, Webhook(event, Persist)); }
    case StartReconcile(rid, org, tx) => if rid !in s.runs { NewRunKeepsInv(s, rid, Reconcile(org, tx, FetchRow)); }
  }

  /** Every action keeps the invariant, and no action undoes what a row already says. */
  lemma NextKeepsInv(s: State, a: Action)
    requires Inv(s)
    ensures Inv(Next(s, a)) && StoreEvolves(s.store, Next(s, a).store)
  {
    match a
    case Advance(rid, c) => if rid in s.runs { AdvanceKeepsInv(s, rid, c); }
    case SetAccount(account, row) => SettingsKeepInv(s, a);
    case SetPricing(org, kind, rule) => SettingsKeepInv(s, a);
    case _ => StartKeepsInv(s, a);
  }

  lemma EvolutionIsTransitive(x: Store, y: Store, z: Store)
    requires StoreEvolves(x, y) && StoreEvolves(y, z)
    ensures StoreEvolves(x, z)
  {
  }

  lemma {:induction false} ExecKeepsInv(s: State, history: seq<Action>)
    requires Inv(s)
    ensures Inv(Exec(s, history)) && StoreEvolves(s.store, Exec(s, history).store)
    decreases |history|
  {
    hide Inv;
    if history == [] {
    } else {
      var s' := Next(s, history[0]);
      NextKeepsInv(s, history[0]);
      ExecKeepsInv(s', history[1..]);
      EvolutionIsTransitive(s.store, s'.store, Exec(s, history).store);
    }
  }

  lemma InitialInv()
    ensures Inv(INITIAL)
  {
    assert forall id: Id :: id in EMPTY_BOOKS.order <==> id in EMPTY_BOOKS.txs;
  }
}
