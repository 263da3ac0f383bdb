/** The payment handlers as a state machine. Every database call and every provider call of
    createChargeForOrg, createOutboundForOrg, providerWebhook and consoleReconcileTransaction is
    one atomic step of a run; runs interleave freely, and a run that is never advanced again is
    a crashed one. A database call may also fail before it arrives, or take effect and lose its
    reply. */
module Gateway {
  import opened Wrappers
  import opened Ledger
  import Pricing

  // --- tables beside the ledger ---------------------------------------------

  /** An idempotency key is scoped by organization and operation ("pix.<kind>.create"). */
  datatype Key = Key(org: Id, operation: Kind, key: string)

  datatype KeyStatus = Processing | KeySucceeded | FailedFinal | KeyAmbiguous

  /** A stored response: a transaction as fetched, or the zero value left by a failed fetch. */
  datatype Snapshot = Zero | Row(id: Id, tx: Tx)

  datatype KeyRow = KeyRow(fingerprint: string, resource: Id, status: KeyStatus, response: Option<Snapshot>)

  datatype EvidenceKey = EvidenceKey(connection: Id, eventId: string)

  /** `evidence` maps a provider event to whether processed_at is set. */
  datatype Store = Store(books: Books, keys: map<Key, KeyRow>, evidence: map<EvidenceKey, bool>)

  datatype ClaimResult = Acquired | Conflict | Replay(response: Option<Snapshot>) | Busy

  /** claim_idempotency: insert unless present, then judge the row that is there. */
  function ClaimKey(s: Store, key: Key, fingerprint: string, resource: Id): (Store, ClaimResult) {
    if key !in s.keys then (s.(keys := s.keys[key := KeyRow(fingerprint, resource, Processing, None)]), Acquired)
    else
      var row := s.keys[key];
      if row.fingerprint != fingerprint then (s, Conflict)
      else if row.status == KeySucceeded || row.status == FailedFinal then (s, Replay(row.response))
      else (s, Busy)
  }

  /** finish_idempotency: an unguarded update of the row, if there is one. */
  function FinishKey(s: Store, key: Key, status: KeyStatus, response: Snapshot): Store {
    if key !in s.keys then s
    else s.(keys := s.keys[key := s.keys[key].(status := status, response := Some(response))])
  }

  // --- runs --------------------------------------------------------------------

  /** A create request after its reads: the account, connection and fresh resource id are chosen. */
  datatype Request = Request(org: Id, kind: Kind, key: string, fingerprint: string, account: Id, provider: string,
                             connection: Option<Id>, amount: int, id: Id)
  {
    function Scope(): Key { Key(org, kind, key) }
  }

  /** The three statuses an adapter reports. */
  datatype ProviderStatus = StillPending | Paid | Refused

  datatype Event = Event(connection: Id, eventId: string, externalId: string, kind: Option<Kind>,
                         status: ProviderStatus, amount: int)

  datatype CreateReply = ServerError | KeyReused | InProgress | NotBegun | Replayed(response: Option<Snapshot>)
                       | RejectedByProvider(tx: Snapshot) | OutcomeUnknown(tx: Snapshot) | Created(tx: Snapshot)

  datatype CreatePc =
    | Claim
    | Begin
    | CallProvider
    | Reject
    | MarkAmbiguous
    | Record(externalId: string, reported: ProviderStatus)
    | ApplyReported(reported: ProviderStatus)
    | FetchResult(outcome: KeyStatus)
    | Finish(outcome: KeyStatus, snapshot: Snapshot)
    | CreateDone(reply: CreateReply)

  datatype WebhookReply = WebhookError | Duplicate | UnknownExternalId | EventConflict | IllegalTransition | Received

  datatype WebhookPc = Persist | ReadEvidence | Lookup | ApplyEvent(tx: Id, kind: Kind) | Finalize
                     | WebhookDone(reply: WebhookReply)

  datatype ReconcileReply = NotFound | AlreadyFinal(tx: Tx) | Unavailable | ProviderFailed | IdentityConflict
                          | UpdateFailed | TransitionRefused | ReloadFailed | Unresolved | Reconciled(tx: Tx)

  datatype ReconcilePc =
    | FetchRow
    | Ask(seen: Tx)
    | StorePayload(seen: Tx, status: ProviderStatus)
    | ApplyAnswer(seen: Tx, status: ProviderStatus)
    | ResetPending(seen: Tx)
    | Reload(answer: ProviderStatus)
    | ReconcileDone(reply: ReconcileReply)

  datatype Run =
    | Create(req: Request, acquired: bool, cpc: CreatePc)
    | Webhook(event: Event, wpc: WebhookPc)
    | Reconcile(org: Id, tx: Id, rpc: ReconcilePc)

  /** What the outside observes, in order: transactions begun, provider create calls, replays. */
  datatype Observation =
    | Began(run: Id, key: Key, tx: Id)
    | Called(run: Id, key: Key, tx: Id)
    | Answered(run: Id, key: Key, fingerprint: string, response: Option<Snapshot>)

  datatype State = State(store: Store, runs: map<Id, Run>, log: seq<Observation>)

  const INITIAL := State(Store(EMPTY_BOOKS, map[], map[]), map[], [])

  datatype Delivery = Delivered | NotSent | ReplyLost

  datatype ProviderReply = Accepted(externalId: string, status: ProviderStatus) | FinalError | UnknownError

  /** What the environment decides about one step. */
  datatype Choice = Choice(delivery: Delivery, reply: ProviderReply)

  // --- database calls -------------------------------------------------------------

  /** The store after a call, and whether the caller saw it succeed. */
  function Attempt(s: Store, result: Option<Books>, delivery: Delivery): (Store, bool) {
    if delivery == NotSent || result.None? then (s, false) else (s.(books := result.value), delivery == Delivered)
  }

  function BeginFor(b: Books, req: Request): Option<Books> {
    if req.kind == PixIn then BeginPixIn(b, req.id, req.org, req.account, req.provider, req.connection, req.amount)
    else BeginOutbound(b, req.id, req.org, req.account, req.kind, req.provider, req.connection, req.amount)
  }

  /** applyProviderStatus for a reported status other than pending. */
  function ApplyStatus(b: Books, id: Id, kind: Kind, status: ProviderStatus): Option<Books> {
    match status
    case Paid => if kind == PixIn then SettlePixIn(b, id) else CompleteOutbound(b, id)
    case Refused => if kind == PixIn then Some(PatchStatus(b, id, Failed)) else FailOutbound(b, id)
    case StillPending => Some(b)
  }

  function FetchTransaction(b: Books, org: Id, id: Id): Option<Tx> {
    if id in b.txs && b.txs[id].org == org then Some(b.txs[id]) else None
  }

  // --- the steps of each handler -----------------------------------------------------

  datatype Effect = Effect(store: Store, run: Run, seen: seq<Observation>)

  function StepCreate(s: Store, rid: Id, run: Run, c: Choice): Effect
    requires run.Create?
  {
    var req, key := run.req, run.req.Scope();
    match run.cpc
    case Claim =>
      if c.delivery == NotSent then Effect(s, run.(cpc := CreateDone(ServerError)), [])
      else
        var (s', claim) := ClaimKey(s, key, req.fingerprint, req.id);
        if c.delivery == ReplyLost then Effect(s', run.(cpc := CreateDone(ServerError)), [])
        else (
          match claim
          case Acquired => Effect(s', run.(acquired := true, cpc := Begin), [])
          case Conflict => Effect(s', run.(cpc := CreateDone(KeyReused)), [])
          case Busy => Effect(s', run.(cpc := CreateDone(InProgress)), [])
          case Replay(response) =>
            Effect(s', run.(cpc := CreateDone(Replayed(response))), [Answered(rid, key, req.fingerprint, response)])
        )
    case Begin =>
      var result := BeginFor(s.books, req);
      var (s', ok) := Attempt(s, result, c.delivery);
      Effect(s', run.(cpc := if ok then CallProvider else CreateDone(NotBegun)),
             if result.Some? && c.delivery != NotSent then [Began(rid, key, req.id)] else [])
    case CallProvider =>
      var next := match c.reply
        case Accepted(externalId, status) => Record(externalId, status)
        case FinalError => Reject
        case UnknownError => MarkAmbiguous;
      Effect(s, run.(cpc := next), [Called(rid, key, req.id)])
    case Reject =>
      var (s', _) := Attempt(s, ApplyStatus(s.books, req.id, req.kind, Refused), c.delivery);
      Effect(s', run.(cpc := FetchResult(FailedFinal)), [])
    case MarkAmbiguous =>
      var (s', _) := Attempt(s, Some(PatchStatus(s.books, req.id, Ambiguous)), c.delivery);
      Effect(s', run.(cpc := FetchResult(KeyAmbiguous)), [])
    case Record(externalId, reported) =>
      var (s', ok) := Attempt(s, PatchExternalId(s.books, req.id, externalId), c.delivery);
      Effect(s', run.(cpc := if ok then ApplyReported(reported) else CreateDone(ServerError)), [])
    case ApplyReported(reported) =>
      // The fetch before this call only supplies the id and the kind, which never change.
      if reported == StillPending then Effect(s, run.(cpc := FetchResult(KeySucceeded)), [])
      else
        var (s', ok) := Attempt(s, ApplyStatus(s.books, req.id, req.kind, reported), c.delivery);
        Effect(s', run.(cpc := if ok then FetchResult(KeySucceeded) else CreateDone(ServerError)), [])
    case FetchResult(outcome) =>
      var row := if c.delivery == Delivered then FetchTransaction(s.books, req.org, req.id) else None;
      var next := if row.Some? then Finish(outcome, Row(req.id, row.value))
                  else if outcome == KeySucceeded then CreateDone(ServerError)
                  else Finish(outcome, Zero);
      Effect(s, run.(cpc := next), [])
    case Finish(outcome, snapshot) =>
      var s' := if c.delivery == NotSent then s else FinishKey(s, key, outcome, snapshot);
      var reply := match outcome
        case FailedFinal => RejectedByProvider(snapshot)
        case KeyAmbiguous => OutcomeUnknown(snapshot)
        case _ => if c.delivery == Delivered then Created(snapshot) else ServerError;
      Effect(s', run.(cpc := CreateDone(reply)), [])
    case CreateDone(_) => Effect(s, run, [])
  }

  function StepWebhook(s: Store, run: Run, c: Choice): Effect
    requires run.Webhook?
  {
    var e := run.event;
    var evidence := EvidenceKey(e.connection, e.eventId);
    match run.wpc
    case Persist =>
      // Insert with resolution=ignore-duplicates: no row comes back for a duplicate.
      if c.delivery == NotSent then Effect(s, run.(wpc := WebhookDone(WebhookError)), [])
      else
        var isNew := evidence !in s.evidence;
        var s' := if isNew then s.(evidence := s.evidence[evidence := false]) else s;
        Effect(s', run.(wpc := if c.delivery == ReplyLost then WebhookDone(WebhookError)
                               else if isNew then Lookup else ReadEvidence), [])
    case ReadEvidence =>
      var next := if c.delivery != Delivered || evidence !in s.evidence then WebhookDone(WebhookError)
                  else if s.evidence[evidence] then WebhookDone(Duplicate)
                  else Lookup;
      Effect(s, run.(wpc := next), [])
    case Lookup =>
      var found := if c.delivery != Delivered then None
                   else FindByExternalId(s.books.txs, s.books.order, e.connection, e.externalId);
      var next :=
        if found.None? || found.value !in s.books.txs then WebhookDone(UnknownExternalId)
        else
          var tx := s.books.txs[found.value];
          if e.kind.Some? && e.kind.value != tx.kind then WebhookDone(EventConflict)
          else if e.amount > 0 && e.amount != tx.amount then WebhookDone(EventConflict)
          else if e.status == StillPending then Finalize
          else ApplyEvent(found.value, tx.kind);
      Effect(s, run.(wpc := next), [])
    case ApplyEvent(id, kind) =>
      var (s', ok) := Attempt(s, ApplyStatus(s.books, id, kind, e.status), c.delivery);
      Effect(s', run.(wpc := if ok then Finalize else WebhookDone(IllegalTransition)), [])
    case Finalize =>
      var s' := if c.delivery == NotSent || evidence !in s.evidence then s
                else s.(evidence := s.evidence[evidence := true]);
      Effect(s', run.(wpc := WebhookDone(if c.delivery == Delivered then Received else WebhookError)), [])
    case WebhookDone(_) => Effect(s, run, [])
  }

  function StepReconcile(s: Store, run: Run, c: Choice): Effect
    requires run.Reconcile?
  {
    match run.rpc
    case FetchRow =>
      var row := if c.delivery == Delivered then FetchTransaction(s.books, run.org, run.tx) else None;
      var next := if row.None? then ReconcileDone(NotFound)
                  else if row.value.Terminal() then ReconcileDone(AlreadyFinal(row.value))
                  else if row.value.connection.None? || row.value.externalId.None? || row.value.externalId.value == ""
                  then ReconcileDone(Unavailable)
                  else Ask(row.value);
      Effect(s, run.(rpc := next), [])
    case Ask(seen) =>
      var next := match c.reply
        case Accepted(externalId, status) =>
          if externalId != "" && Some(externalId) != seen.externalId then ReconcileDone(IdentityConflict)
          else StorePayload(seen, status)
        case _ => ReconcileDone(ProviderFailed);
      Effect(s, run.(rpc := next), [])
    case StorePayload(seen, status) =>
      // The provider's payload is not a modelled column; when there is none, the call is skipped.
      var next := if c.delivery != Delivered then ReconcileDone(UpdateFailed)
                  else if status != StillPending then ApplyAnswer(seen, status)
                  else if seen.status == Ambiguous then ResetPending(seen)
                  else Reload(StillPending);
      Effect(s, run.(rpc := next), [])
    case ApplyAnswer(seen, status) =>
      var (s', ok) := Attempt(s, ApplyStatus(s.books, run.tx, seen.kind, status), c.delivery);
      Effect(s', run.(rpc := if ok then Reload(status) else ReconcileDone(TransitionRefused)), [])
    case ResetPending(seen) =>
      var (s', ok) := Attempt(s, Some(PatchStatus(s.books, run.tx, Pending)), c.delivery);
      Effect(s', run.(rpc := if ok then Reload(StillPending) else ReconcileDone(UpdateFailed)), [])
    case Reload(_) =>
      var row := if c.delivery == Delivered then FetchTransaction(s.books, run.org, run.tx) else None;
      var reply := if row.None? then ReloadFailed
                   else if row.value.status == Ambiguous then Unresolved
                   else Reconciled(row.value);
      Effect(s, run.(rpc := ReconcileDone(reply)), [])
    case ReconcileDone(_) => Effect(s, run, [])
  }

  function Step(s: Store, rid: Id, run: Run, c: Choice): Effect {
    match run
    case Create(_, _, _) => StepCreate(s, rid, run, c)
    case Webhook(_, _) => StepWebhook(s, run, c)
    case Reconcile(_, _, _) => StepReconcile(s, run, c)
  }

  // --- the machine --------------------------------------------------------------------

  datatype Action =
    | StartCreate(run: Id, req: Request)
    | StartWebhook(run: Id, event: Event)
    | StartReconcile(run: Id, org: Id, tx: Id)
    | Advance(run: Id, choice: Choice)
    | SetAccount(account: Id, row: Account)
    | SetPricing(org: Id, kind: Kind, rule: Pricing.Rule)

  /** One action; an action that is not enabled changes nothing. */
  function Next(s: State, a: Action): State {
    match a
    case StartCreate(run, req) => if run in s.runs then s else s.(runs := s.runs[run := Create(req, false, Claim)])
    case StartWebhook(run, event) => if run in s.runs then s else s.(runs := s.runs[run := Webhook(event, Persist)])
    case StartReconcile(run, org, tx) =>
      if run in s.runs then s else s.(runs := s.runs[run := Reconcile(org, tx, FetchRow)])
    case Advance(run, choice) =>
      if run !in s.runs then s
      else
        var e := Step(s.store, run, s.runs[run], choice);
        State(e.store, s.runs[run := e.run], s.log + e.seen)
    case SetAccount(account, row) =>
      var b := s.store.books;
      s.(store := s.store.(books := b.(accounts := b.accounts[account := row])))
    case SetPricing(org, kind, rule) =>
      if !Pricing.Accepted(rule) then s
      else s.(store := s.store.(books := s.store.books.(pricing := s.store.books.pricing[(org, kind) := rule])))
  }

  /** The state after a whole history. */
  function Exec(s: State, history: seq<Action>): State
    decreases |history|
  {
    if history == [] then s else Exec(Next(s, history[0]), history[1..])
  }

  /** One run advanced alone, once per choice. */
  function Alone(s: Store, rid: Id, run: Run, script: seq<Choice>): (Store, Run)
    decreases |script|
  {
    if script == [] then (s, run)
    else
      var e := Step(s, rid, run, script[0]);
      Alone(e.store, rid, e.run, script[1..])
  }
}
