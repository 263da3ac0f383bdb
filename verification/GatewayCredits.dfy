/** How every step of the machine moves the status of a pix_in and its credit. The failure patch
    of a pix_in has no guard, so a refused status is the one step that overwrites a success. */
module GatewayCredits {
  import opened Wrappers
  import opened Ledger
  import opened LedgerLaws
  import opened Gateway
  import opened GatewaySafety

  /** The next step of a run takes a refused status to row `id`. */
  predicate Refuses(run: Run, c: Choice, id: Id) {
    && c.delivery != NotSent
    && match run
       case Create(req, _, pc) => req.id == id && (pc == Reject || pc == ApplyReported(Refused))
       case Webhook(event, pc) => pc.ApplyEvent? && pc.tx == id && event.status == Refused
       case Reconcile(_, tx, pc) => tx == id && pc.ApplyAnswer? && pc.status == Refused
  }

  predicate DeliversRefusal(s: State, a: Action, id: Id) {
    a.Advance? && a.run in s.runs && Refuses(s.runs[a.run], a.choice, id)
  }

  /** A refused status reaches the row when it is already succeeded. */
  predicate LateRefusal(s: State, a: Action, id: Id) {
    DeliversRefusal(s, a, id) && id in s.store.books.txs && s.store.books.txs[id].status == Succeeded
  }

  predicate MeetsLateRefusal(s: State, history: seq<Action>, id: Id)
    decreases |history|
  {
    history != [] && (LateRefusal(s, history[0], id) || MeetsLateRefusal(Next(s, history[0]), history[1..], id))
  }

  function Credits(b: Books, id: Id): nat {
    Posted(b.journals, id, SettledPixIn)
  }

  /** What a call may do to a pix_in: a terminal one keeps its credit and its status, unless it is
      refused; an open one that fails has not been credited meanwhile. */
  ghost predicate PixInMoves(b: Books, b': Books, id: Id, refused: bool)
    requires id in b.txs
  {
    && id in b'.txs
    && (b.txs[id].Terminal() ==> b'.txs[id].status == (if refused then Failed else b.txs[id].status)
                                 && Credits(b', id) == Credits(b, id))
    && (!b.txs[id].Terminal() && b'.txs[id].status == Failed ==> Credits(b', id) == Credits(b, id))
  }

  lemma ApplyMovesIt(b: Books, id: Id, status: ProviderStatus)
    requires id in b.txs && b.txs[id].kind == PixIn
    ensures var r := ApplyStatus(b, id, PixIn, status); r.Some? ==> PixInMoves(b, r.value, id, status == Refused)
  {
    hide Credits;
    if status == Refused { KeepsCredits(b, PatchStatus(b, id, Failed), id); }
  }

  lemma ApplyMovesAnother(b: Books, x: Id, kind: Kind, status: ProviderStatus, id: Id)
    requires id in b.txs && b.txs[id].kind == PixIn && x in b.txs && x != id
    ensures var r := ApplyStatus(b, x, kind, status); r.Some? ==> PixInMoves(b, r.value, id, false)
  {
    var r := ApplyStatus(b, x, kind, status);
    if r.Some? {
      ApplyPostsForItsRow(b, x, kind, status);
      if r.value.journals != b.journals {
        hide ApplyStatus;
        PostedAppend(b.journals, r.value.journals[|b.journals|], id, SettledPixIn);
      }
    }
  }

  lemma ApplyPostsForItsRow(b: Books, x: Id, kind: Kind, status: ProviderStatus)
    requires x in b.txs
    ensures var r := ApplyStatus(b, x, kind, status);
            r.Some? ==>
              && r.value.txs == b.txs[x := r.value.txs[x]]
              && (r.value.journals == b.journals
                  || (|r.value.journals| == |b.journals| + 1 && r.value.journals[|b.journals|].tx == x
                      && r.value.journals == b.journals + [r.value.journals[|b.journals|]]))
  {
    hide Trail, Balance;
  }

  lemma ApplyMoves(b: Books, x: Id, kind: Kind, status: ProviderStatus, id: Id)
    requires id in b.txs && b.txs[id].kind == PixIn && x in b.txs && b.txs[x].kind == kind
    ensures var r := ApplyStatus(b, x, kind, status);
            r.Some? ==> PixInMoves(b, r.value, id, x == id && status == Refused)
    ensures x == id && status == Refused ==> ApplyStatus(b, x, kind, status).Some?
  {
    hide PixInMoves;
    if x == id { ApplyMovesIt(b, id, status); } else { ApplyMovesAnother(b, x, kind, status, id); }
  }

  lemma BeginMoves(b: Books, req: Request, id: Id)
    requires id in b.txs && b.txs[id].kind == PixIn
    ensures var r := BeginFor(b, req); r.Some? ==> PixInMoves(b, r.value, id, false)
  {
    var r := BeginFor(b, req);
    if r.Some? && r.value.journals != b.journals {
      PostedAppend(b.journals, r.value.journals[|b.journals|], id, SettledPixIn);
    }
  }

  lemma PatchMoves(b: Books, b': Books, id: Id)
    requires id in b.txs && id in b'.txs && b'.journals == b.journals
    requires b.txs[id].Terminal() ==> b'.txs[id].status == b.txs[id].status
    ensures PixInMoves(b, b', id, false)
  {
  }

  /** The steps of a create run that patch its row or post its journals. */
  lemma CreateMoves(s: Store, rid: Id, run: Run, c: Choice, id: Id)
    requires run.Create? && CreateOk(s, run) && id in s.books.txs && s.books.txs[id].kind == PixIn
    requires run.cpc.Begin? || run.cpc.Reject? || run.cpc.ApplyReported?
    ensures PixInMoves(s.books, Step(s, rid, run, c).store.books, id, Refuses(run, c, id))
  {
    hide BeginFor, ApplyStatus, PixInMoves;
    UnchangedMoves(s.books, s.books, id);
    match run.cpc
    case Begin => BeginMoves(s.books, run.req, id);
    case Reject => ApplyMoves(s.books, run.req.id, run.req.kind, Refused, id);
    case ApplyReported(reported) => ApplyMoves(s.books, run.req.id, run.req.kind, reported, id);
  }

  lemma HolderMoves(s: Store, rid: Id, run: Run, c: Choice, id: Id)
    requires run.Create? && CreateOk(s, run) && id in s.books.txs && s.books.txs[id].kind == PixIn
    requires !run.cpc.Begin? && !run.cpc.Reject? && !run.cpc.ApplyReported?
    ensures PixInMoves(s.books, Step(s, rid, run, c).store.books, id, Refuses(run, c, id))
  {
    hide PixInMoves;
    PatchMoves(s.books, Step(s, rid, run, c).store.books, id);
  }

  lemma KeepsCredits(b: Books, b': Books, id: Id)
    requires b'.journals == b.journals
    ensures Credits(b', id) == Credits(b, id)
  {
  }

  lemma EventMoves(s: Store, rid: Id, run: Run, c: Choice, id: Id)
    requires !run.Create? && RunOk(s, run) && id in s.books.txs && s.books.txs[id].kind == PixIn
    ensures PixInMoves(s.books, Step(s, rid, run, c).store.books, id, Refuses(run, c, id))
  {
    hide ApplyStatus, PixInMoves;
    UnchangedMoves(s.books, s.books, id);
    match run
    case Webhook(event, pc) => if pc.ApplyEvent? { ApplyMoves(s.books, pc.tx, pc.kind, event.status, id); }
    case Reconcile(_, tx, pc) => if pc.ApplyAnswer? { ApplyMoves(s.books, tx, pc.seen.kind, pc.status, id); }
  }

  /** Every action moves a pix_in only in this way. */
  lemma StepMoves(s: State, a: Action, id: Id)
    requires Inv(s) && id in s.store.books.txs && s.store.books.txs[id].kind == PixIn
    ensures PixInMoves(s.store.books, Next(s, a).store.books, id, DeliversRefusal(s, a, id))
  {
    if a.Advance? && a.run in s.runs {
      RunIsOk(s.store, s.runs, a.run);
      hide Inv, PixInMoves, Step, Refuses;
      var run := s.runs[a.run];
      if !run.Create? { EventMoves(s.store, a.run, run, a.choice, id); }
      else if run.cpc.Begin? || run.cpc.Reject? || run.cpc.ApplyReported? {
        CreateMoves(s.store, a.run, run, a.choice, id);
      } else {
        HolderMoves(s.store, a.run, run, a.choice, id);
      }
    } else {
      hide Inv, PixInMoves;
      UnchangedMoves(s.store.books, Next(s, a).store.books, id);
    }
  }

  lemma UnchangedMoves(b: Books, b': Books, id: Id)
    requires id in b.txs && b'.txs == b.txs && b'.journals == b.journals
    ensures PixInMoves(b, b', id, false)
  {
  }

  // --- agreement between row and ledger ----------------------------------------------------

  /** The row and the ledger agree on whether the pix_in was credited; an id without a row, or of
      an outbound payment, has nothing to agree on. */
  ghost predicate CreditAgrees(b: Books, id: Id) {
    id in b.txs && b.txs[id].kind == PixIn ==> (b.txs[id].status == Succeeded <==> Credits(b, id) == 1)
  }

  lemma CreditsByStatus(b: Books, id: Id)
    requires BooksOk(b) && id in b.txs && b.txs[id].kind == PixIn
    ensures b.txs[id].status == Succeeded ==> Credits(b, id) == 1
    ensures !b.txs[id].Terminal() ==> Credits(b, id) == 0
    ensures Credits(b, id) <= 1
  {
    PixInCreditedOnce(b, id);
  }

  lemma BeganPending(s: State, a: Action, id: Id)
    requires Inv(s) && id !in s.store.books.txs && id in Next(s, a).store.books.txs
    ensures Next(s, a).store.books.txs[id].status == Pending
  {
    RunIsOk(s.store, s.runs, a.run);
    hide Inv;
    NewRowIsPending(s.store, a.run, s.runs[a.run], a.choice, id);
  }

  lemma NewRowIsPending(s: Store, rid: Id, run: Run, c: Choice, id: Id)
    requires RunOk(s, run) && id !in s.books.txs && id in Step(s, rid, run, c).store.books.txs
    ensures Step(s, rid, run, c).store.books.txs[id].status == Pending
  {
    hide ApplyStatus, BeginFor;
    match run
    case Create(req, _, pc) =>
      if pc == Begin { BeginAddsPending(s.books, req); }
      if pc == Reject { ApplyPostsForItsRow(s.books, req.id, req.kind, Refused); }
      if pc.ApplyReported? { ApplyPostsForItsRow(s.books, req.id, req.kind, pc.reported); }
    case Webhook(event, pc) =>
      if pc.ApplyEvent? { ApplyPostsForItsRow(s.books, pc.tx, pc.kind, event.status); }
    case Reconcile(_, tx, pc) =>
      if pc.ApplyAnswer? { ApplyPostsForItsRow(s.books, tx, pc.seen.kind, pc.status); }
  }

  lemma BeginAddsPending(b: Books, req: Request)
    ensures var r := BeginFor(b, req);
            r.Some? ==> req.id in r.value.txs && r.value.txs == b.txs[req.id := r.value.txs[req.id]]
                        && r.value.txs[req.id].status == Pending
  {
  }

  /** One step breaks the agreement of a row exactly when it is a late refusal, and none restores it. */
  lemma AgreementStep(s: State, a: Action, id: Id)
    requires Inv(s) && (id in s.store.books.txs ==> s.store.books.txs[id].kind == PixIn)
    ensures CreditAgrees(Next(s, a).store.books, id) <==> CreditAgrees(s.store.books, id) && !LateRefusal(s, a, id)
    ensures id in s.store.books.txs ==> id in Next(s, a).store.books.txs
  {
    NextKeepsInv(s, a);
    var b, b' := s.store.books, Next(s, a).store.books;
    if id in b.txs {
      StepMoves(s, a, id);
      CreditsByStatus(b, id);
      assert b'.txs[id].kind == PixIn;
      CreditsByStatus(b', id);
    } else if id in b'.txs && b'.txs[id].kind == PixIn {
      BeganPending(s, a, id);
      CreditsByStatus(b', id);
    }
  }
}
