/** What every history of the KYC handlers keeps, whatever the interleaving. */
module KycSafety {
  import opened Wrappers
  import opened Kyc

  // --- documents -------------------------------------------------------------------

  /** How many documents of a type a merchant has ever registered. */
  function Count(docs: seq<Document>, merchant: Id, docType: DocType): nat {
    if docs == [] then 0
    else Count(docs[..|docs| - 1], merchant, docType) + if SameSlot(docs[|docs| - 1], merchant, docType) then 1 else 0
  }

  /** The place of a document among those of its slot, in order of registration. */
  function Place(docs: seq<Document>, i: nat): nat
    requires i < |docs|
  {
    Count(docs[..i + 1], docs[i].merchant, docs[i].docType)
  }

  /** The current document of a slot is the last one registered. */
  ghost predicate DocsOk(docs: seq<Document>) {
    forall i :: 0 <= i < |docs| ==>
      (docs[i].isCurrent <==> Place(docs, i) == Count(docs, docs[i].merchant, docs[i].docType))
  }

  ghost predicate KeepsSlot(f: Document -> Document) {
    forall d :: f(d).merchant == d.merchant && f(d).docType == d.docType && f(d).version == d.version
  }

  lemma {:induction false} CountAfterAmend(docs: seq<Document>, f: Document -> Document, merchant: Id, docType: DocType)
    requires KeepsSlot(f)
    ensures Count(Amend(docs, f), merchant, docType) == Count(docs, merchant, docType)
  {
    if docs != [] {
      var front := docs[..|docs| - 1];
      assert Amend(docs, f)[..|docs| - 1] == Amend(front, f);
      CountAfterAmend(front, f, merchant, docType);
    }
  }

  lemma PlaceAfterAmend(docs: seq<Document>, f: Document -> Document, i: nat)
    requires i < |docs| && KeepsSlot(f)
    ensures Place(Amend(docs, f), i) == Place(docs, i)
  {
    assert Amend(docs, f)[..i + 1] == Amend(docs[..i + 1], f);
    CountAfterAmend(docs[..i + 1], f, docs[i].merchant, docs[i].docType);
  }

  lemma {:induction false} CountGrows(docs: seq<Document>, n: nat, merchant: Id, docType: DocType)
    requires n <= |docs|
    ensures Count(docs[..n], merchant, docType) <= Count(docs, merchant, docType)
  {
    if n < |docs| {
      var front := docs[..|docs| - 1];
      assert front[..n] == docs[..n];
      CountGrows(front, n, merchant, docType);
    } else {
      assert docs[..n] == docs;
    }
  }

  lemma AmendKeepsDocs(docs: seq<Document>, f: Document -> Document)
    requires DocsOk(docs) && KeepsSlot(f) && forall d :: f(d).isCurrent == d.isCurrent
    ensures DocsOk(Amend(docs, f))
  {
    forall i | 0 <= i < |docs|
      ensures Place(Amend(docs, f), i) == Place(docs, i)
      ensures Count(Amend(docs, f), docs[i].merchant, docs[i].docType) == Count(docs, docs[i].merchant, docs[i].docType)
    {
      PlaceAfterAmend(docs, f, i);
      CountAfterAmend(docs, f, docs[i].merchant, docs[i].docType);
    }
  }

  /** Retiring the current document of a slot and adding a row, whatever its version. */
  lemma RegisterCounts(docs: seq<Document>, merchant: Id, docType: DocType, row: Document)
    requires SameSlot(row, merchant, docType)
    ensures var docs' := Amend(docs, d => Retired(d, merchant, docType)) + [row];
            && (forall m, ty ::
                  Count(docs', m, ty) == Count(docs, m, ty) + if m == merchant && ty == docType then 1 else 0)
            && (forall i :: 0 <= i < |docs| ==> Place(docs', i) == Place(docs, i))
            && Place(docs', |docs|) == Count(docs, merchant, docType) + 1
  {
    var f := d => Retired(d, merchant, docType);
    var kept := Amend(docs, f);
    var docs' := kept + [row];
    assert docs'[..|kept|] == kept && docs'[..|kept| + 1] == docs';
    forall m, ty
      ensures Count(docs', m, ty) == Count(docs, m, ty) + if m == merchant && ty == docType then 1 else 0
    {
      CountAfterAmend(docs, f, m, ty);
    }
    forall i | 0 <= i < |docs| ensures Place(docs', i) == Place(docs, i) {
      PlaceAfterAmend(docs, f, i);
      assert docs'[..i + 1] == kept[..i + 1];
    }
  }

  lemma RegisterKeepsDocs(docs: seq<Document>, merchant: Id, docType: DocType, row: Document)
    requires DocsOk(docs) && SameSlot(row, merchant, docType) && row.isCurrent
    ensures DocsOk(Amend(docs, d => Retired(d, merchant, docType)) + [row])
  {
    RegisterCounts(docs, merchant, docType, row);
    forall i | 0 <= i < |docs| ensures Place(docs, i) <= Count(docs, docs[i].merchant, docs[i].docType) {
      CountGrows(docs, i + 1, docs[i].merchant, docs[i].docType);
    }
  }

  /** A type has a current document exactly when one was ever registered. */
  ghost predicate HasCurrent(docs: seq<Document>, merchant: Id, docType: DocType) {
    exists d <- docs :: SameSlot(d, merchant, docType) && d.isCurrent
  }

  lemma {:induction false} LastOfSlot(docs: seq<Document>, merchant: Id, docType: DocType) returns (i: nat)
    requires Count(docs, merchant, docType) > 0
    ensures i < |docs| && SameSlot(docs[i], merchant, docType)
    ensures Count(docs[..i + 1], merchant, docType) == Count(docs, merchant, docType)
  {
    i := |docs| - 1;
    if SameSlot(docs[i], merchant, docType) {
      assert docs[..i + 1] == docs;
    } else {
      var front := docs[..i];
      i := LastOfSlot(front, merchant, docType);
      assert front[..i + 1] == docs[..i + 1];
    }
  }

  lemma {:induction false} CountOfMember(docs: seq<Document>, d: Document)
    requires d in docs
    ensures Count(docs, d.merchant, d.docType) > 0
  {
    if docs[|docs| - 1] != d {
      var front := docs[..|docs| - 1];
      assert docs == front + [docs[|docs| - 1]];
      CountOfMember(front, d);
    }
  }

  lemma CurrentIffRegistered(docs: seq<Document>, merchant: Id, docType: DocType)
    requires DocsOk(docs)
    ensures HasCurrent(docs, merchant, docType) <==> Count(docs, merchant, docType) > 0
  {
    if Count(docs, merchant, docType) > 0 {
      var i := LastOfSlot(docs, merchant, docType);
      assert Place(docs, i) == Count(docs, merchant, docType) && docs[i] in docs;
    }
    forall d <- docs | SameSlot(d, merchant, docType)
      ensures Count(docs, merchant, docType) > 0
    {
      CountOfMember(docs, d);
    }
  }

  lemma LaterPlaceIsHigher(docs: seq<Document>, i: nat, j: nat)
    requires i < j < |docs| && SameSlot(docs[j], docs[i].merchant, docs[i].docType)
    ensures Place(docs, i) < Place(docs, j)
  {
    CountGrows(docs[..j], i + 1, docs[i].merchant, docs[i].docType);
    assert docs[..j][..i + 1] == docs[..i + 1] && docs[..j + 1][..j] == docs[..j];
  }

  // --- the current-only query --------------------------------------------------------

  const ALL_TYPES: set<DocType> := {Articles, CnpjCard, RepresentativeId, AddressProof, OwnershipDocument, BankProof,
                                    OtherDocument}

  ghost predicate OneCurrentPerSlot(docs: seq<Document>) {
    forall i, j :: 0 <= i < j < |docs| && docs[i].isCurrent && docs[j].isCurrent ==>
                     !SameSlot(docs[j], docs[i].merchant, docs[i].docType)
  }

  lemma DocsHaveOneCurrent(docs: seq<Document>)
    requires DocsOk(docs)
    ensures OneCurrentPerSlot(docs)
  {
    forall i, j | 0 <= i < j < |docs| && docs[i].isCurrent && docs[j].isCurrent
      ensures !SameSlot(docs[j], docs[i].merchant, docs[i].docType)
    {
      if SameSlot(docs[j], docs[i].merchant, docs[i].docType) { LaterPlaceIsHigher(docs, i, j); }
    }
  }

  ghost function CurrentTypes(docs: seq<Document>, merchant: Id): set<DocType> {
    set d <- docs | d.merchant == merchant && d.isCurrent :: d.docType
  }

  lemma {:induction false} CurrentAreDistinct(docs: seq<Document>, merchant: Id)
    requires OneCurrentPerSlot(docs)
    ensures |CurrentDocuments(docs, merchant)| <= |CurrentTypes(docs, merchant)|
    ensures forall d :: d in CurrentDocuments(docs, merchant) <==> d in docs && d.merchant == merchant && d.isCurrent
  {
    if docs != [] {
      var front, last := docs[..|docs| - 1], docs[|docs| - 1];
      assert docs == front + [last];
      CurrentAreDistinct(front, merchant);
      var before, after := CurrentTypes(front, merchant), CurrentTypes(docs, merchant);
      if last.merchant == merchant && last.isCurrent {
        assert last.docType !in before;
        assert after == before + {last.docType};
      } else {
        assert after == before;
      }
    }
  }

  lemma AtMostSevenTypes(types: set<DocType>)
    ensures |types| <= 7
  {
    forall docType <- types ensures docType in ALL_TYPES {
      match docType
      case Articles => case CnpjCard => case RepresentativeId => case AddressProof =>
      case OwnershipDocument => case BankProof => case OtherDocument =>
    }
    assert ALL_TYPES == types + (ALL_TYPES - types);
    assert |ALL_TYPES| == 7;
  }

  /** The row limit of the current-only query drops nothing: a merchant has at most seven
      current documents. */
  lemma LimitDropsNothing(docs: seq<Document>, merchant: Id)
    requires DocsOk(docs)
    ensures |CurrentDocuments(docs, merchant)| <= 7
    ensures QueryCurrent(docs, merchant) == CurrentDocuments(docs, merchant)
    ensures forall d :: d in QueryCurrent(docs, merchant) <==> d in docs && d.merchant == merchant && d.isCurrent
  {
    hide OneCurrentPerSlot;
    DocsHaveOneCurrent(docs);
    CurrentAreDistinct(docs, merchant);
    AtMostSevenTypes(CurrentTypes(docs, merchant));
  }

  // --- events and reviews -----------------------------------------------------------------

  /** Replaying a merchant's status-bearing events: None once the chain breaks, otherwise the
      status reached (None before the first event). */
  function Replay(events: seq<Event>, merchant: Id): Option<Option<Status>> {
    if events == [] then Some(None)
    else
      var before, e := Replay(events[..|events| - 1], merchant), events[|events| - 1];
      if e.merchant != merchant || e.to.None? then before
      else if before == Some(e.from) then Some(e.to)
      else None
  }

  /** The transitions the functions make. */
  predicate LegalEdge(e: Event) {
    match e.kind
    case KycCreated => e.from == None && e.to == Some(Draft)
    case LegacyApproved => e.from == None && e.to == Some(Approved)
    case KycSubmitted => e.from in {Some(Draft), Some(NeedsChanges), Some(Rejected)} && e.to == Some(Submitted)
    case ReviewStarted => e.from in {Some(Submitted), Some(UnderReview)} && e.to == Some(UnderReview)
    case Decided => e.from in {Some(Submitted), Some(UnderReview)}
        && e.to in {Some(Approved), Some(NeedsChanges), Some(Rejected)}
    case DocumentUploaded => e.from == None && e.to == None
  }

  predicate HasEvent(events: seq<Event>, merchant: Id, kind: EventKind) {
    exists e <- events :: e.merchant == merchant && e.kind == kind
  }

  /** The review actions an audit of the events expects, in order. */
  function ActionsInEvents(events: seq<Event>, merchant: Id): seq<Status> {
    if events == [] then []
    else
      var e := events[|events| - 1];
      ActionsInEvents(events[..|events| - 1], merchant)
      + if e.merchant == merchant && (e.kind == ReviewStarted || e.kind == Decided) && e.to.Some? then
          [e.to.value]
        else []
  }

  function ActionsInReviews(reviews: seq<Review>, merchant: Id): seq<Status> {
    if reviews == [] then []
    else
      var r := reviews[|reviews| - 1];
      ActionsInReviews(reviews[..|reviews| - 1], merchant)
      + if r.merchant != merchant then [] else [if r.action == ActionStarted then UnderReview else r.action.decision]
  }

  lemma AppendEvent(events: seq<Event>, e: Event, merchant: Id)
    ensures Replay(events + [e], merchant) ==
            if e.merchant != merchant || e.to.None? then Replay(events, merchant)
            else if Replay(events, merchant) == Some(e.from) then Some(e.to) else None
    ensures ActionsInEvents(events + [e], merchant) == ActionsInEvents(events, merchant)
            + if e.merchant == merchant && (e.kind == ReviewStarted || e.kind == Decided) && e.to.Some? then
                [e.to.value]
              else []
    ensures forall kind :: HasEvent(events + [e], merchant, kind)
                           <==> HasEvent(events, merchant, kind) || (e.merchant == merchant && e.kind == kind)
  {
    assert (events + [e])[..|events|] == events;
  }

  lemma AppendReview(reviews: seq<Review>, r: Review, merchant: Id)
    ensures ActionsInReviews(reviews + [r], merchant) == ActionsInReviews(reviews, merchant)
            + if r.merchant != merchant then []
              else [if r.action == ActionStarted then UnderReview else r.action.decision]
  {
    assert (reviews + [r])[..|reviews|] == reviews;
  }

  /** Any unbroken legal chain that gets past draft without the legacy approval has a submission. */
  lemma {:induction false} OnlySubmissionsLeaveDraft(events: seq<Event>, merchant: Id)
    requires forall e <- events :: LegalEdge(e)
    requires Replay(events, merchant).Some? && Replay(events, merchant).value.Some?
    requires Replay(events, merchant).value != Some(Draft) && !HasEvent(events, merchant, LegacyApproved)
    ensures HasEvent(events, merchant, KycSubmitted)
  {
    var front, e := events[..|events| - 1], events[|events| - 1];
    assert events == front + [e];
    AppendEvent(front, e, merchant);
    if e.merchant == merchant && e.kind == KycSubmitted {
    } else {
      OnlySubmissionsLeaveDraft(front, merchant);
    }
  }

  // --- the invariant ---------------------------------------------------------------------

  ghost predicate ProfileOk(p: Profile) {
    && (p.approvedAt.Some? <==> p.status == Approved)
    && (p.rejectedAt.Some? <==> p.status == Rejected)
    && (p.reviewedAt.Some? <==> p.status !in {Draft, Submitted})
    && (p.status == Draft ==> p.submittedAt.None?)
    && (p.status !in {Draft, Approved} ==> p.submittedAt.Some?)
    && (p.status in {Draft, Submitted, UnderReview} ==> p.publicNote.None?)
    && (p.status in {NeedsChanges, Rejected} ==> p.publicNote.Some? && p.publicNote.value != "")
  }

  function StatusOf(t: Tables, merchant: Id): Option<Status> {
    if merchant in t.profiles then Some(t.profiles[merchant].status) else None
  }

  ghost predicate Documented(docs: seq<Document>, merchant: Id) {
    forall docType <- REQUIRED_DOCUMENTS :: Count(docs, merchant, docType) > 0
  }

  ghost predicate MerchantOk(t: Tables, merchant: Id) {
    && Replay(t.events, merchant) == Some(StatusOf(t, merchant))
    && ActionsInReviews(t.reviews, merchant) == ActionsInEvents(t.events, merchant)
    && (merchant in t.profiles ==> ProfileOk(t.profiles[merchant]))
    && (merchant in t.profiles && t.profiles[merchant].status != Draft
        && !HasEvent(t.events, merchant, LegacyApproved) ==>
          Documented(t.documents, merchant))
  }

  ghost predicate TablesOk(t: Tables) {
    && DocsOk(t.documents)
    && (forall e <- t.events :: LegalEdge(e))
    && (forall merchant: Id :: MerchantOk(t, merchant))
  }

  ghost predicate RunOk(t: Tables, run: Run) {
    run.Submitting? && run.spc == CallSubmit ==> Documented(t.documents, run.merchant)
  }

  ghost predicate Inv(s: State) {
    TablesOk(s.tables) && forall r <- s.runs :: RunOk(s.tables, s.runs[r])
  }

  /** What no step takes back: a registered type, an event, an approval. */
  ghost predicate Evolves(t: Tables, t': Tables) {
    && (forall m: Id, ty: DocType :: Count(t.documents, m, ty) <= Count(t'.documents, m, ty))
    && t.events <= t'.events
    && (forall m <- t.profiles :: m in t'.profiles
          && (t.profiles[m].status == Approved ==> t'.profiles[m] == t.profiles[m].(text := t'.profiles[m].text)))
  }

  // --- each function keeps it ------------------------------------------------------------

  /** One event, at most one review, one profile, and documents whose types do not shrink. */
  lemma MoveKeepsTables(t: Tables, t': Tables, merchant: Id, e: Event)
    requires TablesOk(t) && DocsOk(t'.documents) && LegalEdge(e) && e.merchant == merchant
    requires t'.events == t.events + [e]
    requires forall m, ty :: Count(t.documents, m, ty) <= Count(t'.documents, m, ty)
    requires forall m ::
               m != merchant ==>
                 (m in t'.profiles <==> m in t.profiles) && (m in t.profiles ==> t'.profiles[m] == t.profiles[m])
    requires t'.reviews == t.reviews || exists r :: t'.reviews == t.reviews + [r] && r.merchant == merchant
    requires MerchantOk(t', merchant)
    ensures TablesOk(t')
  {
    forall m: Id | m != merchant ensures MerchantOk(t', m) {
      assert MerchantOk(t, m);
      AppendEvent(t.events, e, m);
      if t'.reviews != t.reviews {
        var r :| t'.reviews == t.reviews + [r] && r.merchant == merchant;
        AppendReview(t.reviews, r, m);
      }
    }
  }

  lemma ProvisionKeeps(t: Tables, merchant: Id)
    requires TablesOk(t)
    ensures var r := Provision(t, merchant); r.Some? ==> TablesOk(r.value) && Evolves(t, r.value)
  {
    var r := Provision(t, merchant);
    if r.Some? {
      var e := Event(merchant, KycCreated, None, Some(Draft));
      assert MerchantOk(t, merchant);
      AppendEvent(t.events, e, merchant);
      MoveKeepsTables(t, r.value, merchant, e);
    }
  }

  lemma GrandfatherKeeps(t: Tables, merchant: Id, note: string, now: int)
    requires TablesOk(t)
    ensures var r := Grandfather(t, merchant, note, now); r.Some? ==> TablesOk(r.value) && Evolves(t, r.value)
  {
    var r := Grandfather(t, merchant, note, now);
    if r.Some? {
      var e := Event(merchant, LegacyApproved, None, Some(Approved));
      assert MerchantOk(t, merchant);
      AppendEvent(t.events, e, merchant);
      MoveKeepsTables(t, r.value, merchant, e);
    }
  }

  lemma RegisterKeeps(t: Tables, id: Id, merchant: Id, docType: DocType, version: nat)
    requires TablesOk(t)
    ensures var r := InsertDocument(t, id, merchant, docType, version);
            r.Some? ==> TablesOk(r.value) && Evolves(t, r.value)
  {
    var r := InsertDocument(t, id, merchant, docType, version);
    if r.Some? {
      var e := Event(merchant, DocumentUploaded, None, None);
      RegisterCounts(t.documents, merchant, docType, r.value.documents[|t.documents|]);
      RegisterKeepsDocs(t.documents, merchant, docType, r.value.documents[|t.documents|]);
      assert MerchantOk(t, merchant);
      AppendEvent(t.events, e, merchant);
      MoveKeepsTables(t, r.value, merchant, e);
    }
  }

  lemma AmendKeepsCounts(docs: seq<Document>, f: Document -> Document)
    requires KeepsSlot(f)
    ensures forall m, ty :: Count(Amend(docs, f), m, ty) == Count(docs, m, ty)
  {
    forall m, ty ensures Count(Amend(docs, f), m, ty) == Count(docs, m, ty) { CountAfterAmend(docs, f, m, ty); }
  }

  lemma SubmitKeeps(t: Tables, merchant: Id, now: int)
    requires TablesOk(t) && Documented(t.documents, merchant)
    ensures var r := SubmitKyc(t, merchant, now); r.Some? ==> TablesOk(r.value) && Evolves(t, r.value)
  {
    var r := SubmitKyc(t, merchant, now);
    if r.Some? {
      var e := Event(merchant, KycSubmitted, Some(t.profiles[merchant].status), Some(Submitted));
      AmendKeepsDocs(t.documents, d => Reset(d, merchant));
      AmendKeepsCounts(t.documents, d => Reset(d, merchant));
      assert MerchantOk(t, merchant);
      AppendEvent(t.events, e, merchant);
      MoveKeepsTables(t, r.value, merchant, e);
    }
  }

  lemma StartReviewKeeps(t: Tables, merchant: Id, note: string, now: int)
    requires TablesOk(t)
    ensures var r := StartReview(t, merchant, note, now); r.Some? ==> TablesOk(r.value) && Evolves(t, r.value)
  {
    var r := StartReview(t, merchant, note, now);
    if r.Some? {
      var e := Event(merchant, ReviewStarted, Some(t.profiles[merchant].status), Some(UnderReview));
      assert MerchantOk(t, merchant);
      AppendEvent(t.events, e, merchant);
      AppendReview(t.reviews, Review(merchant, ActionStarted, None, NoteOf(note)), merchant);
      MoveKeepsTables(t, r.value, merchant, e);
    }
  }

  lemma DecideKeeps(t: Tables, merchant: Id, decision: Status, publicNote: string, internalNote: string, now: int)
    requires TablesOk(t)
    ensures var r := Decide(t, merchant, decision, publicNote, internalNote, now);
            r.Some? ==> TablesOk(r.value) && Evolves(t, r.value)
  {
    var r := Decide(t, merchant, decision, publicNote, internalNote, now);
    if r.Some? {
      var e := Event(merchant, Decided, Some(t.profiles[merchant].status), Some(decision));
      AmendKeepsDocs(t.documents, d => Decision(d, merchant, decision));
      AmendKeepsCounts(t.documents, d => Decision(d, merchant, decision));
      assert MerchantOk(t, merchant);
      AppendEvent(t.events, e, merchant);
      AppendReview(t.reviews, Review(merchant, ActionDecided(decision), NoteOf(publicNote), NoteOf(internalNote)),
                   merchant);
      MoveKeepsTables(t, r.value, merchant, e);
    }
  }

  lemma TextKeeps(t: Tables, merchant: Id, text: map<Field, string>)
    requires TablesOk(t)
    ensures TablesOk(PatchText(t, merchant, text)) && Evolves(t, PatchText(t, merchant, text))
  {
    var t' := PatchText(t, merchant, text);
    forall m: Id ensures MerchantOk(t', m) { assert MerchantOk(t, m); }
  }

  /** The Go check passed on rows read earlier; the types it saw are still there. */
  lemma CheckedIsDocumented(t: Tables, merchant: Id, text: map<Field, string>)
    requires TablesOk(t) && Complete(text, QueryCurrent(t.documents, merchant))
    ensures Documented(t.documents, merchant)
  {
    LimitDropsNothing(t.documents, merchant);
    forall docType <- REQUIRED_DOCUMENTS ensures Count(t.documents, merchant, docType) > 0 {
      var d :| d in QueryCurrent(t.documents, merchant) && d.isCurrent && d.docType == docType;
      CountOfMember(t.documents, d);
    }
  }

  lemma StepKeeps(t: Tables, run: Run, now: int)
    requires TablesOk(t) && RunOk(t, run)
    ensures var (t', run') := Step(t, run, now); TablesOk(t') && Evolves(t, t') && RunOk(t', run')
  {
    hide TablesOk;
    match run
    case Submitting(m, LoadDocuments(text)) =>
      if Complete(text, QueryCurrent(t.documents, m)) { CheckedIsDocumented(t, m, text); }
    case Submitting(m, CallSubmit) => SubmitKeeps(t, m, now);
    case Uploading(m, ty, id, Insert(seen)) => RegisterKeeps(t, id, m, ty, MaxVersion(seen, m, ty) + 1);
    case Editing(m, text, Act) => TextKeeps(t, m, text);
    case _ =>
  }

  lemma NextKeepsInv(s: State, a: Action)
    requires Inv(s)
    ensures Inv(Next(s, a)) && Evolves(s.tables, Next(s, a).tables)
  {
    hide TablesOk;
    match a
    case CreateMerchant(m) => ProvisionKeeps(s.tables, m);
    case AdoptMerchant(m, note, now) => GrandfatherKeeps(s.tables, m, note, now);
    case Start(_, _) =>
    case Advance(r, now) => if r in s.runs { StepKeeps(s.tables, s.runs[r], now); }
    case ReviewStart(m, note, now) => StartReviewKeeps(s.tables, m, note, now);
    case DecideCase(m, decision, publicNote, internalNote, now) =>
      DecideKeeps(s.tables, m, decision, publicNote, internalNote, now);
  }

  lemma EvolutionIsTransitive(x: Tables, y: Tables, z: Tables)
    requires Evolves(x, y) && Evolves(y, z)
    ensures Evolves(x, z)
  {
  }

  lemma {:induction false} ExecKeepsInv(s: State, history: seq<Action>)
    requires Inv(s)
    ensures Inv(Exec(s, history)) && Evolves(s.tables, Exec(s, history).tables)
    decreases |history|
  {
    hide Inv;
    if history != [] {
      NextKeepsInv(s, history[0]);
      ExecKeepsInv(Next(s, history[0]), history[1..]);
      EvolutionIsTransitive(s.tables, Next(s, history[0]).tables, Exec(s, history).tables);
    }
  }

  lemma InitialInv()
    ensures Inv(INITIAL)
  {
  }
}
