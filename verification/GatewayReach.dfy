/** Exactly which transaction rows the handlers can still change. */
module GatewayReach {
  import opened Wrappers
  import opened Ledger
  import opened Gateway
  import opened GatewaySafety
  import opened GatewayHistories

  /** Some provider event still moves the row: it is open, or a pix_in that a refusal overwrites. */
  predicate OpenToEvents(tx: Tx) {
    !tx.Terminal() || (tx.kind == PixIn && tx.status == Succeeded)
  }

  /** A provider event finds a row by its connection and external id. */
  predicate Findable(tx: Tx) {
    tx.connection.Some? && tx.externalId.Some?
  }

  /** The create run of a row still has a step ahead that changes it. */
  predicate StillCreating(b: Books, run: Run, id: Id)
    requires id in b.txs
  {
    && run.Create? && run.req.id == id
    && match run.cpc
       case CallProvider => true
       case Reject => true
       case MarkAmbiguous => true
       case Record(externalId, _) => PatchExternalId(b, id, externalId).Some?
       case ApplyReported(status) =>
         (status == Paid && !b.txs[id].Terminal()) || (status == Refused && OpenToEvents(b.txs[id]))
       case _ => false
  }

  ghost predicate MayChange(s: State, id: Id)
    requires id in s.store.books.txs
  {
    || (Findable(s.store.books.txs[id]) && OpenToEvents(s.store.books.txs[id]))
    || exists r <- s.runs :: StillCreating(s.store.books, s.runs[r], id)
  }

  // --- out of reach: nothing changes the row -----------------------------------------------

  lemma ApplyLeaves(b: Books, x: Id, kind: Kind, status: ProviderStatus, id: Id)
    requires id in b.txs && x in b.txs && b.txs[x].kind == kind
    requires x != id || !OpenToEvents(b.txs[id]) || status == StillPending || (status == Paid && b.txs[id].Terminal())
    ensures var r := ApplyStatus(b, x, kind, status); r.Some? ==> id in r.value.txs && r.value.txs[id] == b.txs[id]
  {
  }

  lemma BeginLeaves(b: Books, req: Request, id: Id)
    requires id in b.txs
    ensures var r := BeginFor(b, req); r.Some? ==> req.id != id && id in r.value.txs && r.value.txs[id] == b.txs[id]
  {
  }

  /** A step of a run that does not concern the row leaves it alone. */
  lemma StepLeaves(s: Store, rid: Id, run: Run, c: Choice, id: Id)
    requires RunOk(s, run) && id in s.books.txs
    requires !(Findable(s.books.txs[id]) && OpenToEvents(s.books.txs[id])) && !StillCreating(s.books, run, id)
    ensures var e := Step(s, rid, run, c); id in e.store.books.txs && e.store.books.txs[id] == s.books.txs[id]
  {
    hide ApplyStatus, BeginFor;
    match run
    case Create(req, _, pc) =>
      if pc == Begin { BeginLeaves(s.books, req, id); }
      if pc == Reject { ApplyLeaves(s.books, req.id, req.kind, Refused, id); }
      if pc.ApplyReported? { ApplyLeaves(s.books, req.id, req.kind, pc.reported, id); }
    case Webhook(event, pc) =>
      if pc.ApplyEvent? { ApplyLeaves(s.books, pc.tx, pc.kind, event.status, id); }
    case Reconcile(_, tx, pc) =>
      if pc.ApplyAnswer? { ApplyLeaves(s.books, tx, pc.seen.kind, pc.status, id); }
  }

  /** A run that has no step ahead that changes the row does not get one. */
  lemma MoverStaysAway(s: Store, rid: Id, run: Run, c: Choice, id: Id)
    requires RunOk(s, run) && id in s.books.txs && !StillCreating(s.books, run, id)
    requires var e := Step(s, rid, run, c); id in e.store.books.txs && e.store.books.txs[id] == s.books.txs[id]
    ensures !StillCreating(Step(s, rid, run, c).store.books, Step(s, rid, run, c).run, id)
  {
    hide ApplyStatus, BeginFor;
    if run.Create? && run.cpc == Begin { BeginLeaves(s.books, run.req, id); }
  }

  /** A conflicting identity stays taken. */
  lemma ConflictStays(b: Books, b': Books, id: Id, externalId: string)
    requires BooksEvolve(b, b') && id in b.txs && PatchExternalId(b, id, externalId).None?
    ensures PatchExternalId(b', id, externalId).None?
  {
    var tx := b.txs[id].(externalId := Some(externalId));
    var other :| other in b.txs.Keys && other != id && SameIdentity(b.txs[other], tx);
    assert other in b'.txs.Keys && SameIdentity(b'.txs[other], b'.txs[id].(externalId := Some(externalId)));
  }

  lemma OthersStayAway(b: Books, b': Books, run: Run, id: Id)
    requires BooksEvolve(b, b') && id in b.txs && id in b'.txs && b'.txs[id] == b.txs[id] && !StillCreating(b, run, id)
    ensures !StillCreating(b', run, id)
  {
    hide BooksEvolve, PatchExternalId;
    if run.Create? && run.req.id == id && run.cpc.Record? { ConflictStays(b, b', id, run.cpc.externalId); }
  }

  lemma OutOfReachAdvance(s: State, rid: Id, c: Choice, id: Id)
    requires Inv(s) && rid in s.runs && id in s.store.books.txs && !MayChange(s, id)
    ensures var s' := Next(s, Advance(rid, c));
            id in s'.store.books.txs && s'.store.books.txs[id] == s.store.books.txs[id] && !MayChange(s', id)
  {
    var s' := Next(s, Advance(rid, c));
    var e := Step(s.store, rid, s.runs[rid], c);
    assert s'.store == e.store && s'.runs == s.runs[rid := e.run];
    NextKeepsInv(s, Advance(rid, c));
    RunIsOk(s.store, s.runs, rid);
    hide Inv, Step, Next, StillCreating, RunOk, BooksEvolve, Findable, OpenToEvents;
    StepLeaves(s.store, rid, s.runs[rid], c, id);
    MoverStaysAway(s.store, rid, s.runs[rid], c, id);
    forall r <- s'.runs ensures !StillCreating(s'.store.books, s'.runs[r], id) {
      if r != rid { OthersStayAway(s.store.books, s'.store.books, s.runs[r], id); }
    }
  }

  lemma OtherActionsKeepRows(s: State, a: Action)
    requires !(a.Advance? && a.run in s.runs)
    ensures Next(s, a).store.books.txs == s.store.books.txs
    ensures forall r <- s.runs :: r in Next(s, a).runs && Next(s, a).runs[r] == s.runs[r]
  {
  }

  lemma OutOfReachOther(s: State, a: Action, id: Id)
    requires Inv(s) && !(a.Advance? && a.run in s.runs) && id in s.store.books.txs && !MayChange(s, id)
    ensures id in Next(s, a).store.books.txs && Next(s, a).store.books.txs[id] == s.store.books.txs[id]
    ensures !MayChange(Next(s, a), id)
  {
    var s' := Next(s, a);
    NextKeepsInv(s, a);
    OtherActionsKeepRows(s, a);
    hide Inv, StillCreating, BooksEvolve, Next, Findable, OpenToEvents;
    forall r <- s'.runs ensures !StillCreating(s'.store.books, s'.runs[r], id) {
      if r in s.runs {
        OthersStayAway(s.store.books, s'.store.books, s.runs[r], id);
      } else {
        NewRunsCreateNothing(s, a, r, id);
      }
    }
  }

  lemma OutOfReachStep(s: State, a: Action, id: Id)
    requires Inv(s) && id in s.store.books.txs && !MayChange(s, id)
    ensures id in Next(s, a).store.books.txs && Next(s, a).store.books.txs[id] == s.store.books.txs[id]
    ensures !MayChange(Next(s, a), id)
  {
    hide Inv, MayChange, Next;
    if a.Advance? && a.run in s.runs { OutOfReachAdvance(s, a.run, a.choice, id); } else { OutOfReachOther(s, a, id); }
  }

  lemma NewRunsCreateNothing(s: State, a: Action, r: Id, id: Id)
    requires id in s.store.books.txs && !(a.Advance? && a.run in s.runs) && r in Next(s, a).runs && r !in s.runs
    ensures id in Next(s, a).store.books.txs && !StillCreating(Next(s, a).store.books, Next(s, a).runs[r], id)
  {
  }

  lemma {:induction false} OutOfReachForever(s: State, more: seq<Action>, id: Id)
    requires Inv(s) && id in s.store.books.txs && !MayChange(s, id)
    ensures id in Exec(s, more).store.books.txs && Exec(s, more).store.books.txs[id] == s.store.books.txs[id]
    decreases |more|
  {
    hide Inv, MayChange;
    if more != [] {
      NextKeepsInv(s, more[0]);
      OutOfReachStep(s, more[0], id);
      OutOfReachForever(Next(s, more[0]), more[1..], id);
    }
  }

  // --- within reach: some continuation changes the row ---------------------------------------

  lemma {:induction false} AboveAll(s: set<nat>) returns (n: nat)
    ensures forall x <- s :: x < n
    decreases |s|
  {
    n := 0;
    if s != {} {
      var x :| x in s;
      var rest := AboveAll(s - {x});
      n := if x < rest then rest else x + 1;
      forall y <- s ensures y < n { assert y == x || y in s - {x}; }
    }
  }

  lemma NewRunId(runs: map<Id, Run>) returns (rid: Id)
    ensures rid !in runs
  {
    rid := AboveAll(runs.Keys);
  }

  lemma NewEventId(evidence: map<EvidenceKey, bool>, connection: Id) returns (eventId: string)
    ensures EvidenceKey(connection, eventId) !in evidence
  {
    var lengths: set<nat> := set e <- evidence.Keys :: |e.eventId|;
    var n := AboveAll(lengths);
    eventId := seq(n, _ => 'e');
    assert forall e <- evidence.Keys :: |e.eventId| in lengths;
  }

  lemma {:induction false} FindsTheRow(txs: map<Id, Tx>, order: seq<Id>, id: Id)
    requires id in order && id in txs && Findable(txs[id]) && IdentitiesUnique(txs)
    ensures FindByExternalId(txs, order, txs[id].connection.value, txs[id].externalId.value) == Some(id)
  {
    if order[0] != id {
      if order[0] in txs { assert !SameIdentity(txs[order[0]], txs[id]); }
      FindsTheRow(txs, order[1..], id);
    }
  }

  lemma RefusalMoves(b: Books, id: Id)
    requires id in b.txs && OpenToEvents(b.txs[id])
    ensures var r := ApplyStatus(b, id, b.txs[id].kind, Refused);
            r.Some? && id in r.value.txs && r.value.txs[id].status == Failed
  {
  }

  lemma PaymentMoves(b: Books, id: Id)
    requires id in b.txs && !b.txs[id].Terminal() && RowOk(b.txs[id])
    ensures var r := ApplyStatus(b, id, b.txs[id].kind, Paid);
            r.Some? && id in r.value.txs && r.value.txs[id].status == Succeeded
  {
  }

  /** A refused event, delivered undisturbed, fails a findable row that is open to events. */
  lemma EventChanges(history: seq<Action>, id: Id) returns (longer: seq<Action>)
    requires id in Reached(history).store.books.txs
    requires var tx := Reached(history).store.books.txs[id]; Findable(tx) && OpenToEvents(tx)
    requires Inv(Reached(history))
    ensures history <= longer && id in Reached(longer).store.books.txs
    ensures Reached(longer).store.books.txs[id] != Reached(history).store.books.txs[id]
  {
    var s := Reached(history);
    var b := s.store.books;
    var tx := b.txs[id];
    assert id in b.order && IdentitiesUnique(b.txs);
    hide Inv, BooksOk, IdentitiesUnique;
    var rid := NewRunId(s.runs);
    var eventId := NewEventId(s.store.evidence, tx.connection.value);
    FindsTheRow(b.txs, b.order, id);
    RefusalMoves(b, id);
    longer := Deliver(history, rid, Event(tx.connection.value, eventId, tx.externalId.value, None, Refused, 0), id);
  }

  /** One more step of a create run that is at a changing step. */
  lemma CreatorStepChanges(s: Store, rid: Id, run: Run, id: Id)
    requires RunOk(s, run) && id in s.books.txs && RowOk(s.books.txs[id]) && StillCreating(s.books, run, id)
    requires !run.cpc.CallProvider?
    ensures var e := Step(s, rid, run, Choice(Delivered, UnknownError));
            id in e.store.books.txs && e.store.books.txs[id] != s.books.txs[id]
  {
    hide ApplyStatus;
    if OpenToEvents(s.books.txs[id]) { RefusalMoves(s.books, id); }
    if !s.books.txs[id].Terminal() { PaymentMoves(s.books, id); }
  }

  lemma CreatorChanges(history: seq<Action>, rid: Id, id: Id) returns (longer: seq<Action>)
    requires Inv(Reached(history)) && id in Reached(history).store.books.txs && rid in Reached(history).runs
    requires StillCreating(Reached(history).store.books, Reached(history).runs[rid], id)
    ensures history <= longer && id in Reached(longer).store.books.txs
    ensures Reached(longer).store.books.txs[id] != Reached(history).store.books.txs[id]
  {
    var s := Reached(history);
    var go := Choice(Delivered, UnknownError);
    RunIsOk(s.store, s.runs, rid);
    RowAndTrail(s.store.books, id);
    longer := Play(history, Advance(rid, go));
    if s.runs[rid].cpc.CallProvider? {
      NextKeepsInv(s, Advance(rid, go));
      var s' := Reached(longer);
      assert s'.store == s.store && s'.runs[rid].cpc == MarkAmbiguous;
      RunIsOk(s'.store, s'.runs, rid);
      hide Inv, RunOk;
      CreatorStepChanges(s'.store, rid, s'.runs[rid], id);
      longer := Play(longer, Advance(rid, go));
    } else {
      hide Inv, RunOk;
      CreatorStepChanges(s.store, rid, s.runs[rid], id);
    }
  }

  // --- the exact set --------------------------------------------------------------------------

  function RowAfter(history: seq<Action>, id: Id): Option<Tx> {
    var txs := Reached(history).store.books.txs;
    if id in txs then Some(txs[id]) else None
  }

  lemma {:induction false} ExecConcat(s: State, h: seq<Action>, more: seq<Action>)
    ensures Exec(s, h + more) == Exec(Exec(s, h), more)
    decreases |h|
  {
    if h == [] {
      assert h + more == more;
    } else {
      assert (h + more)[1..] == h[1..] + more;
      ExecConcat(Next(s, h[0]), h[1..], more);
    }
  }

  lemma WithinReach(history: seq<Action>, id: Id) returns (longer: seq<Action>)
    requires Inv(Reached(history)) && id in Reached(history).store.books.txs && MayChange(Reached(history), id)
    ensures history <= longer && RowAfter(longer, id) != RowAfter(history, id)
  {
    var s := Reached(history);
    hide Inv, StillCreating, Findable, OpenToEvents;
    if Findable(s.store.books.txs[id]) && OpenToEvents(s.store.books.txs[id]) {
      longer := EventChanges(history, id);
    } else {
      var r :| r in s.runs && StillCreating(s.store.books, s.runs[r], id);
      longer := CreatorChanges(history, r, id);
    }
  }

  /** A row never changes again, in any continuation, if and only if no provider event can both
      find and move it and no create run has a changing step left. */
  lemma ExactlyTheRowsOutOfReach(history: seq<Action>, id: Id)
    requires id in Reached(history).store.books.txs
    ensures (forall more: seq<Action> :: RowAfter(history + more, id) == RowAfter(history, id))
            <==> !MayChange(Reached(history), id)
  {
    InitialInv();
    ExecKeepsInv(INITIAL, history);
    hide Inv, MayChange;
    if MayChange(Reached(history), id) {
      var longer := WithinReach(history, id);
      assert longer == history + longer[|history|..];
      assert RowAfter(history + longer[|history|..], id) != RowAfter(history, id);
    } else {
      forall more: seq<Action> ensures RowAfter(history + more, id) == RowAfter(history, id) {
        ExecConcat(INITIAL, history, more);
        OutOfReachForever(Reached(history), more, id);
      }
    }
  }
}
