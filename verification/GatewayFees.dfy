/** Which payments are begun, and the fee that is frozen into their rows. */
module GatewayFees {
  import opened Wrappers
  import opened Ledger
  import opened Gateway
  import opened GatewaySafety
  import opened GatewayCredits
  import opened GatewayHistories
  import Pricing

  lemma QuoteIsTheFee(b: Books, org: Id, kind: Kind, amount: int, fee: int)
    requires PricingOk(b.pricing) && amount > 0
    ensures QuoteFor(b, org, kind, amount) == Some(fee) <==>
              && (org, kind) in b.pricing
              && Pricing.IsFeeOf(fee, b.pricing[(org, kind)], amount)
              && b.pricing[(org, kind)].fixed + Pricing.PercentPart(amount, b.pricing[(org, kind)].bps) <= MAX_INT64
  {
    if (org, kind) in b.pricing {
      Pricing.QuoteIsTheSimulatedFee(b.pricing[(org, kind)], amount);
      Pricing.FeeIsTheClampedSum(amount, b.pricing[(org, kind)], fee);
    }
    hide Pricing.IsFeeOf, Pricing.Quote, Pricing.FeeFor, Pricing.PercentPart;
  }

  /** The row a request asks for, with this fee. */
  function RowFor(req: Request, fee: int): Tx {
    Tx(req.org, req.account, req.provider, req.connection, None, req.kind, Pending, req.amount, fee)
  }

  /** What the database asks of a request before it begins the payment with this fee. */
  ghost predicate Granted(b: Books, req: Request, fee: int) {
    && req.amount > 0 && req.id !in b.txs
    && req.account in b.accounts && b.accounts[req.account] == Account(req.org, true)
    && (req.org, req.kind) in b.pricing
    && Pricing.IsFeeOf(fee, b.pricing[(req.org, req.kind)], req.amount)
    && b.pricing[(req.org, req.kind)].fixed + Pricing.PercentPart(req.amount, b.pricing[(req.org, req.kind)].bps)
       <= MAX_INT64
    && (if req.kind == PixIn then fee < req.amount
        else FitsInt64(req.amount + fee) && FitsInt64(Balance(b.journals, Available(req.account)))
             && Balance(b.journals, Available(req.account)) >= req.amount + fee)
  }

  /** A payment is begun exactly when it is granted, with the fee of the rule in force. */
  lemma BeginsExactlyWhenGranted(b: Books, req: Request, fee: int)
    requires PricingOk(b.pricing)
    ensures (BeginFor(b, req).Some? && req.id in BeginFor(b, req).value.txs
             && BeginFor(b, req).value.txs[req.id] == RowFor(req, fee)) <==> Granted(b, req, fee)
    ensures BeginFor(b, req).Some? ==> exists f: int :: Granted(b, req, f)
  {
    if req.amount > 0 { QuoteIsTheFee(b, req.org, req.kind, req.amount, fee); }
    hide Pricing.IsFeeOf, QuoteFor, Balance, PricingOk, Pricing.PercentPart;
    if BeginFor(b, req).Some? {
      var quote := QuoteFor(b, req.org, req.kind, req.amount).value;
      QuoteIsTheFee(b, req.org, req.kind, req.amount, quote);
      assert Granted(b, req, quote);
    }
  }

  /** Only the begin step of a create run adds a row. */
  lemma RowsComeFromBegin(s: Store, rid: Id, run: Run, c: Choice, id: Id)
    requires RunOk(s, run) && id !in s.books.txs && id in Step(s, rid, run, c).store.books.txs
    ensures run.Create? && run.cpc == Begin && run.req.id == id
    ensures BeginFor(s.books, run.req).Some? && Step(s, rid, run, c).store.books == BeginFor(s.books, run.req).value
  {
    hide ApplyStatus, BeginFor;
    match run
    case Create(req, _, pc) =>
      if pc == Begin { BeginAddsPending(s.books, req); }
      if pc == Reject { ApplyPostsForItsRow(s.books, req.id, req.kind, Refused); }
      if pc.ApplyReported? { ApplyPostsForItsRow(s.books, req.id, req.kind, pc.reported); }
    case Webhook(event, pc) =>
      if pc.ApplyEvent? { ApplyPostsForItsRow(s.books, pc.tx, pc.kind, event.status); }
    case Reconcile(_, tx, pc) =>
      if pc.ApplyAnswer? { ApplyPostsForItsRow(s.books, tx, pc.seen.kind, pc.status); }
  }

  /** Over every history, a row that a step adds carries the fee of the rule in force for its
      organization and operation at that moment. */
  lemma NewRowCarriesTheFee(history: seq<Action>, a: Action, id: Id)
    requires id !in Reached(history).store.books.txs && id in Next(Reached(history), a).store.books.txs
    ensures var b, tx := Reached(history).store.books, Next(Reached(history), a).store.books.txs[id];
            && tx.status == Pending && tx.externalId.None?
            && (tx.org, tx.kind) in b.pricing
            && Pricing.IsFeeOf(tx.fee, b.pricing[(tx.org, tx.kind)], tx.amount)
            && (tx.kind != PixIn ==> Balance(b.journals, Available(tx.account)) >= tx.amount + tx.fee)
  {
    InitialInv();
    ExecKeepsInv(INITIAL, history);
    var s := Reached(history);
    RunIsOk(s.store, s.runs, a.run);
    RowsComeFromBegin(s.store, a.run, s.runs[a.run], a.choice, id);
    var req := s.runs[a.run].req;
    assert PricingOk(s.store.books.pricing);
    hide Inv, Step, RunOk, Pricing.IsFeeOf;
    BeginsExactlyWhenGranted(s.store.books, req, 0);
    var fee: int :| Granted(s.store.books, req, fee);
    BeginsExactlyWhenGranted(s.store.books, req, fee);
  }
}
