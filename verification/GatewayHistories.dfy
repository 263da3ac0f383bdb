/** Histories built step by step, to show that a state is reached. */
module GatewayHistories {
  import opened Wrappers
  import opened Ledger
  import opened Gateway
  import Pricing

  function Reached(history: seq<Action>): State {
    Exec(INITIAL, history)
  }

  lemma {:induction false} ExecAppend(s: State, h: seq<Action>, a: Action)
    ensures Exec(s, h + [a]) == Next(Exec(s, h), a)
    decreases |h|
  {
    if h == [] {
      assert [a][1..] == [];
    } else {
      assert (h + [a])[1..] == h[1..] + [a];
      ExecAppend(Next(s, h[0]), h[1..], a);
    }
  }

  lemma Play(h: seq<Action>, a: Action) returns (h': seq<Action>)
    ensures h' == h + [a] && Reached(h') == Next(Reached(h), a)
  {
    h' := h + [a];
    ExecAppend(INITIAL, h, a);
  }

  /** An undisturbed first delivery up to the point where its status has been applied. */
  lemma Deliver(h: seq<Action>, rid: Id, event: Event, id: Id) returns (h': seq<Action>)
    requires var s := Reached(h);
             && rid !in s.runs && EvidenceKey(event.connection, event.eventId) !in s.store.evidence
             && id in s.store.books.txs && event.kind.None? && event.amount == 0 && event.status != StillPending
             && FindByExternalId(s.store.books.txs, s.store.books.order, event.connection, event.externalId) == Some(id)
             && ApplyStatus(s.store.books, id, s.store.books.txs[id].kind, event.status).Some?
    ensures h <= h'
    ensures var s, s' := Reached(h), Reached(h');
            && s'.store.books == ApplyStatus(s.store.books, id, s.store.books.txs[id].kind, event.status).value
            && s'.store.evidence.Keys == s.store.evidence.Keys + {EvidenceKey(event.connection, event.eventId)}
            && s'.runs.Keys == s.runs.Keys + {rid}
  {
    hide ApplyStatus;
    var go := Choice(Delivered, UnknownError);
    h' := Play(h, StartWebhook(rid, event));
    h' := Play(h', Advance(rid, go));
    h' := Play(h', Advance(rid, go));
    h' := Play(h', Advance(rid, go));
  }

  /** One account, and free charges for its organization. */
  lemma Settings() returns (h: seq<Action>)
    ensures Reached(h) == State(Store(EMPTY_BOOKS.(accounts := map[3 := Account(7, true)],
                                                   pricing := map[(7, PixIn) := Pricing.Rule(0, 0, None, None)]),
                                      map[], map[]), map[], [])
  {
    h := Play([], SetAccount(3, Account(7, true)));
    h := Play(h, SetPricing(7, PixIn, Pricing.Rule(0, 0, None, None)));
  }

  /** A charge of 100 centavos, begun and about to reach the provider. */
  lemma BeginCharge(req: Request) returns (h: seq<Action>)
    requires req == Request(7, PixIn, "key", "fp", 3, "pixhub", Some(5), 100, 1)
    ensures var s := Reached(h); var b := s.store.books;
            && b.txs == map[1 := Tx(7, 3, "pixhub", Some(5), None, PixIn, Pending, 100, 0)]
            && b.order == [1] && b.journals == [] && s.store.evidence == map[]
            && s.store.keys == map[req.Scope() := KeyRow("fp", 1, Processing, None)]
            && s.runs == map[10 := Create(req, true, CallProvider)]
  {
    var go := Choice(Delivered, Accepted("ext", StillPending));
    h := Settings();
    h := Play(h, StartCreate(10, req));
    h := Play(h, Advance(10, go));
    h := Play(h, Advance(10, go));
  }

  /** The same charge, accepted by the provider and recorded. */
  lemma OpenCharge(req: Request) returns (h: seq<Action>)
    requires req == Request(7, PixIn, "key", "fp", 3, "pixhub", Some(5), 100, 1)
    ensures var s := Reached(h); var b := s.store.books;
            && b.txs == map[1 := Tx(7, 3, "pixhub", Some(5), Some("ext"), PixIn, Pending, 100, 0)]
            && b.order == [1] && b.journals == [] && s.store.evidence == map[] && s.runs.Keys == {10}
  {
    var go := Choice(Delivered, Accepted("ext", StillPending));
    h := BeginCharge(req);
    h := Play(h, Advance(10, go));
    h := Play(h, Advance(10, go));
  }
}
