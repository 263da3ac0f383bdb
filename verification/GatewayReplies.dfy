/** What the create handlers answer: the row as it is in the books, and the same again to every
    repetition of the request. */
module GatewayReplies {
  import opened Wrappers
  import opened Ledger
  import opened Gateway
  import opened GatewaySafety
  import opened GatewayHistories

  // --- a shown row was a row of the books -------------------------------------------------

  /** The transaction a run holds, or has answered with. */
  function Shown(run: Run): Snapshot {
    match run
    case Create(_, _, Finish(_, snapshot)) => snapshot
    case Create(_, _, CreateDone(Created(snapshot))) => snapshot
    case Create(_, _, CreateDone(RejectedByProvider(snapshot))) => snapshot
    case Create(_, _, CreateDone(OutcomeUnknown(snapshot))) => snapshot
    case Create(_, _, CreateDone(Replayed(Some(snapshot)))) => snapshot
    case Reconcile(_, id, ReconcileDone(AlreadyFinal(tx))) => Row(id, tx)
    case Reconcile(_, id, ReconcileDone(Reconciled(tx))) => Row(id, tx)
    case _ => Zero
  }

  function Stored(row: KeyRow): Snapshot {
    if row.response.Some? then row.response.value else Zero
  }

  predicate IsRow(snapshot: Snapshot, b: Books) {
    snapshot.Row? ==> snapshot.id in b.txs && b.txs[snapshot.id] == snapshot.tx
  }

  /** The snapshot shows a row exactly as it was after some beginning of the history. */
  ghost predicate WasRow(snapshot: Snapshot, history: seq<Action>) {
    exists n :: 0 <= n <= |history| && IsRow(snapshot, Reached(history[..n]).store.books)
  }

  ghost predicate AllWereRows(history: seq<Action>) {
    && (forall r <- Reached(history).runs :: WasRow(Shown(Reached(history).runs[r]), history))
    && (forall k <- Reached(history).store.keys :: WasRow(Stored(Reached(history).store.keys[k]), history))
  }

  /** A step shows what its run held, a stored response, or a row of the books; and stores what its
      run holds. */
  lemma StepShows(s: Store, rid: Id, run: Run, c: Choice)
    ensures var shown := Shown(Step(s, rid, run, c).run);
            || shown == Shown(run) || IsRow(shown, s.books)
            || (run.Create? && run.req.Scope() in s.keys && shown == Stored(s.keys[run.req.Scope()]))
    ensures var s' := Step(s, rid, run, c).store;
            forall k <- s'.keys :: (k in s.keys && Stored(s'.keys[k]) == Stored(s.keys[k]))
                                   || Stored(s'.keys[k]) == Shown(run) || Stored(s'.keys[k]) == Zero
  {
    hide BeginFor, ApplyStatus, PatchExternalId, PatchStatus;
  }

  lemma WasRowLater(snapshot: Snapshot, history: seq<Action>, a: Action)
    requires WasRow(snapshot, history)
    ensures WasRow(snapshot, history + [a])
  {
    var n :| 0 <= n <= |history| && IsRow(snapshot, Reached(history[..n]).store.books);
    assert (history + [a])[..n] == history[..n];
  }

  lemma IsRowNow(snapshot: Snapshot, history: seq<Action>)
    requires IsRow(snapshot, Reached(history).store.books)
    ensures WasRow(snapshot, history)
  {
    assert history[..|history|] == history;
  }

  lemma OneMoreAction(history: seq<Action>, a: Action)
    requires AllWereRows(history)
    ensures AllWereRows(history + [a])
  {
    var s, s' := Reached(history), Reached(history + [a]);
    ExecAppend(INITIAL, history, a);
    assert IsRow(Zero, s.store.books);
    IsRowNow(Zero, history);
    if a.Advance? && a.run in s.runs { StepShows(s.store, a.run, s.runs[a.run], a.choice); }
    hide Step, WasRow, Reached, IsRow;
    forall r <- s'.runs ensures WasRow(Shown(s'.runs[r]), history + [a]) {
      if IsRow(Shown(s'.runs[r]), s.store.books) { IsRowNow(Shown(s'.runs[r]), history); }
      assert WasRow(Shown(s'.runs[r]), history);
      WasRowLater(Shown(s'.runs[r]), history, a);
    }
    forall k <- s'.store.keys ensures WasRow(Stored(s'.store.keys[k]), history + [a]) {
      assert WasRow(Stored(s'.store.keys[k]), history);
      WasRowLater(Stored(s'.store.keys[k]), history, a);
    }
  }

  lemma {:induction false} HistoryShows(history: seq<Action>)
    ensures AllWereRows(history)
  {
    if history != [] {
      var front := history[..|history| - 1];
      HistoryShows(front);
      OneMoreAction(front, history[|history| - 1]);
      assert history == front + [history[|history| - 1]];
    }
  }

  /** Over every history, a transaction that a run holds or has answered with, or that is stored as
      the response of a key, is a row exactly as the books had it at some earlier moment. */
  lemma ShownRowsWereRows(history: seq<Action>, rid: Id, key: Key)
    ensures rid in Reached(history).runs ==> WasRow(Shown(Reached(history).runs[rid]), history)
    ensures key in Reached(history).store.keys ==> WasRow(Stored(Reached(history).store.keys[key]), history)
  {
    HistoryShows(history);
  }

  // --- a created payment is stored ----------------------------------------------------------

  /** A run that answered Created has stored that very answer under its key. */
  ghost predicate CreatedIsStored(s: Store, run: Run) {
    run.Create? && run.cpc.CreateDone? && run.cpc.reply.Created? ==>
      && run.acquired && run.req.Scope() in s.keys
      && s.keys[run.req.Scope()] == KeyRow(run.req.fingerprint, run.req.id, KeySucceeded, Some(run.cpc.reply.tx))
  }

  lemma CreatorStores(s: Store, rid: Id, run: Run, c: Choice)
    requires RunOk(s, run) && CreatedIsStored(s, run)
    ensures CreatedIsStored(Step(s, rid, run, c).store, Step(s, rid, run, c).run)
  {
    hide BeginFor, ApplyStatus, PatchExternalId, PatchStatus;
  }

  lemma StoredStays(s: State, rid: Id, c: Choice, r: Id)
    requires Inv(s) && rid in s.runs && r in s.runs && r != rid && CreatedIsStored(s.store, s.runs[r])
    ensures CreatedIsStored(Next(s, Advance(rid, c)).store, s.runs[r])
  {
    AdvanceKeepsInv(s, rid, c);
    assert OwnersDiffer(s.runs);
    hide Inv, Step, BooksEvolve;
  }

  lemma NextStores(s: State, a: Action)
    requires Inv(s) && forall r <- s.runs :: CreatedIsStored(s.store, s.runs[r])
    ensures forall r <- Next(s, a).runs :: CreatedIsStored(Next(s, a).store, Next(s, a).runs[r])
  {
    var s' := Next(s, a);
    forall r <- s'.runs ensures CreatedIsStored(s'.store, s'.runs[r]) {
      if a.Advance? && a.run in s.runs {
        if r == a.run {
          RunIsOk(s.store, s.runs, r);
          CreatorStores(s.store, r, s.runs[r], a.choice);
        } else {
          hide Inv, Step, CreatedIsStored;
          StoredStays(s, a.run, a.choice, r);
        }
      }
    }
  }

  lemma {:induction false} StoredOverARun(s: State, history: seq<Action>)
    requires Inv(s) && forall r <- s.runs :: CreatedIsStored(s.store, s.runs[r])
    ensures forall r <- Exec(s, history).runs :: CreatedIsStored(Exec(s, history).store, Exec(s, history).runs[r])
    decreases |history|
  {
    hide Inv, CreatedIsStored;
    if history != [] {
      NextKeepsInv(s, history[0]);
      NextStores(s, history[0]);
      StoredOverARun(Next(s, history[0]), history[1..]);
    }
  }

  // --- how a claim is answered ----------------------------------------------------------------

  /** The answer to a delivered claim, by what the key row says. */
  predicate AnsweredByRow(s: State, rid: Id, s': State)
    requires rid in s.runs && s.runs[rid].Create?
  {
    var req := s.runs[rid].req;
    var key := req.Scope();
    rid in s'.runs && s'.runs[rid].Create? && s'.runs[rid].req == req
    && var pc := s'.runs[rid].cpc;
       if key !in s.store.keys then
         pc == Begin && s'.runs[rid].acquired && s'.log == s.log
         && s'.store == s.store.(keys := s.store.keys[key := KeyRow(req.fingerprint, req.id, Processing, None)])
       else
         && s'.store == s.store
         && var row := s.store.keys[key];
            if row.fingerprint != req.fingerprint then pc == CreateDone(KeyReused) && s'.log == s.log
            else match row.status
            case KeySucceeded =>
              && pc == CreateDone(Replayed(row.response))
              && s'.log == s.log + [Answered(rid, key, req.fingerprint, row.response)]
            case FailedFinal =>
              && pc == CreateDone(Replayed(row.response))
              && s'.log == s.log + [Answered(rid, key, req.fingerprint, row.response)]
            case _ => pc == CreateDone(InProgress) && s'.log == s.log
  }

  /** An absent key is acquired; a key of other input is a conflict; a finished one is replayed; one
      in processing, or ambiguous, is in progress. */
  lemma ClaimIsAnsweredByTheRow(s: State, rid: Id, c: Choice)
    requires rid in s.runs && s.runs[rid].Create? && s.runs[rid].cpc == Claim && c.delivery == Delivered
    ensures AnsweredByRow(s, rid, Next(s, Advance(rid, c)))
  {
  }

  /** Over every history, once a request was answered Created(x), every later request with the same
      key and input whose claim is delivered is answered with x, and changes nothing. */
  lemma CreatedIsReplayed(history: seq<Action>, first: Id, again: Id, c: Choice)
    requires var runs := Reached(history).runs;
             && first in runs && runs[first].Create? && runs[first].cpc.CreateDone? && runs[first].cpc.reply.Created?
             && again in runs && runs[again].Create? && runs[again].cpc == Claim && c.delivery == Delivered
             && runs[again].req.Scope() == runs[first].req.Scope()
             && runs[again].req.fingerprint == runs[first].req.fingerprint
    ensures var s := Reached(history); var s' := Next(s, Advance(again, c));
            && again in s'.runs && s'.runs[again].Create? && s'.store == s.store
            && s'.runs[again].cpc == CreateDone(Replayed(Some(s.runs[first].cpc.reply.tx)))
  {
    InitialInv();
    StoredOverARun(INITIAL, history);
    var s := Reached(history);
    assert CreatedIsStored(s.store, s.runs[first]);
    ClaimIsAnsweredByTheRow(s, again, c);
  }
}
