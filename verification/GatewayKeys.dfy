/** Idempotency keys left behind by a run that ended without storing a response. */
module GatewayKeys {
  import opened Wrappers
  import opened Ledger
  import opened Gateway
  import opened GatewaySafety
  import opened GatewayHistories

  /** The key is being processed, and every run that acquired it has ended. */
  ghost predicate Abandoned(s: State, key: Key) {
    && key in s.store.keys && s.store.keys[key].status == Processing
    && forall r <- s.runs :: Owns(s.runs[r]) && s.runs[r].req.Scope() == key ==> s.runs[r].cpc.CreateDone?
  }

  lemma OwnerStep(s: Store, rid: Id, run: Run, c: Choice)
    requires Owns(Step(s, rid, run, c).run)
    ensures var run' := Step(s, rid, run, c).run;
            && run.Create? && run'.req == run.req && (Owns(run) || run.req.Scope() !in s.keys)
            && (Owns(run) && run.cpc.CreateDone? ==> run'.cpc.CreateDone?)
  {
    hide BeginFor, ApplyStatus, PatchExternalId, PatchStatus;
  }

  lemma AbandonedNext(s: State, a: Action, key: Key)
    requires Inv(s) && Abandoned(s, key)
    ensures Abandoned(Next(s, a), key) && Next(s, a).store.keys[key] == s.store.keys[key]
  {
    if a.Advance? && a.run in s.runs {
      AdvanceKeepsInv(s, a.run, a.choice);
      RunIsOk(s.store, s.runs, a.run);
      if Owns(Next(s, a).runs[a.run]) { OwnerStep(s.store, a.run, s.runs[a.run], a.choice); }
      hide Inv, Step, BooksEvolve, RunOk;
    }
  }

  lemma {:induction false} AbandonedOverARun(s: State, more: seq<Action>, key: Key)
    requires Inv(s) && Abandoned(s, key)
    ensures Abandoned(Exec(s, more), key) && Exec(s, more).store.keys[key] == s.store.keys[key]
    decreases |more|
  {
    hide Inv, Abandoned;
    if more != [] {
      NextKeepsInv(s, more[0]);
      AbandonedNext(s, more[0], key);
      AbandonedOverARun(Next(s, more[0]), more[1..], key);
    }
  }

  /** Once the run that acquired a key has ended with the key still being processed, the key stays so
      in every continuation, and every later claim that the database answers gets "in progress",
      or a conflict when its input differs. */
  lemma AbandonedForever(history: seq<Action>, more: seq<Action>, key: Key, rid: Id, c: Choice)
    requires Abandoned(Reached(history), key)
    ensures var s := Exec(Reached(history), more);
            && key in s.store.keys && s.store.keys[key] == Reached(history).store.keys[key]
            && s.store.keys[key].status == Processing
            && (rid in s.runs && s.runs[rid].Create? && s.runs[rid].cpc == Claim && s.runs[rid].req.Scope() == key
                && c.delivery == Delivered ==>
                  Next(s, Advance(rid, c)).runs[rid].cpc
                  == CreateDone(if s.runs[rid].req.fingerprint == s.store.keys[key].fingerprint then InProgress
                                else KeyReused))
  {
    InitialInv();
    ExecKeepsInv(INITIAL, history);
    AbandonedOverARun(Reached(history), more, key);
  }

  /** Such keys are reached: the provider accepts a charge, but recording its external id fails. */
  lemma AbandonedIsReached() returns (history: seq<Action>, key: Key)
    ensures Abandoned(Reached(history), key)
  {
    var req := Request(7, PixIn, "key", "fp", 3, "pixhub", Some(5), 100, 1);
    key := req.Scope();
    history := BeginCharge(req);
    history := Play(history, Advance(10, Choice(Delivered, Accepted("ext", StillPending))));
    history := Play(history, Advance(10, Choice(NotSent, UnknownError)));
  }
}
