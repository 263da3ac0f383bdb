/** The KYC tables, the SQL functions over them (migrations 0004 and 0005), and the Go handlers
    in front of those functions. A handler's check and the function it then calls are separate
    steps, so other handlers can run in between; so are the unlocked version read of a
    registration and its writes. The other functions lock the profile row they decide on. */
module Kyc {
  import opened Wrappers

  type Id = nat

  datatype Status = Draft | Submitted | UnderReview | NeedsChanges | Approved | Rejected

  datatype DocType = Articles | CnpjCard | RepresentativeId | AddressProof | OwnershipDocument | BankProof
      | OtherDocument

  datatype DocStatus = DocPending | DocAccepted | DocNeedsChanges | DocRejected

  datatype Document = Document(id: Id, merchant: Id, docType: DocType, version: nat, isCurrent: bool,
                               status: DocStatus, feedback: Option<string>)

  /** The text columns a submission requires. */
  datatype Field = LegalName | TaxId | CompanyEmail | CompanyPhone | AddressLine1 | City | StateCode | PostalCode
                 | RepName | RepDocument | RepBirthDate | RepRole | RepEmail | RepPhone

  datatype Profile = Profile(status: Status, text: map<Field, string>, publicNote: Option<string>,
                             submittedAt: Option<int>, reviewedAt: Option<int>,
                             approvedAt: Option<int>, rejectedAt: Option<int>)

  datatype EventKind = KycCreated | LegacyApproved | KycSubmitted | ReviewStarted | Decided | DocumentUploaded

  datatype Event = Event(merchant: Id, kind: EventKind, from: Option<Status>, to: Option<Status>)

  datatype ReviewAction = ActionStarted | ActionDecided(decision: Status)

  datatype Review = Review(merchant: Id, action: ReviewAction, publicNote: Option<string>, internalNote: Option<string>)

  datatype Tables = Tables(profiles: map<Id, Profile>, documents: seq<Document>, reviews: seq<Review>,
                           events: seq<Event>)

  const EMPTY_TABLES := Tables(map[], [], [], [])

  // --- SQL helpers ----------------------------------------------------------------

  /** PostgreSQL's trim: spaces only, at both ends. */
  function TrimLeft(s: string): string {
    if s != [] && s[0] == ' ' then TrimLeft(s[1..]) else s
  }

  function TrimRight(s: string): string {
    if s != [] && s[|s| - 1] == ' ' then TrimRight(s[..|s| - 1]) else s
  }

  function Trim(s: string): string {
    TrimRight(TrimLeft(s))
  }

  /** nullif(trim(note), '') */
  function NoteOf(note: string): Option<string> {
    if Trim(note) == "" then None else Some(Trim(note))
  }

  predicate SameSlot(d: Document, merchant: Id, docType: DocType) {
    d.merchant == merchant && d.docType == docType
  }

  /** coalesce(max(version), 0) over one merchant's documents of one type. */
  function MaxVersion(docs: seq<Document>, merchant: Id, docType: DocType): nat {
    if docs == [] then 0
    else
      var rest := MaxVersion(docs[..|docs| - 1], merchant, docType);
      var last := docs[|docs| - 1];
      if SameSlot(last, merchant, docType) && last.version > rest then last.version else rest
  }

  /** An UPDATE over the document rows. */
  function Amend(docs: seq<Document>, f: Document -> Document): seq<Document> {
    seq(|docs|, i requires 0 <= i < |docs| => f(docs[i]))
  }

  function Retired(d: Document, merchant: Id, docType: DocType): Document {
    if SameSlot(d, merchant, docType) && d.isCurrent then d.(isCurrent := false) else d
  }

  function Reset(d: Document, merchant: Id): Document {
    if d.merchant == merchant && d.isCurrent then d.(status := DocPending, feedback := None) else d
  }

  function Decision(d: Document, merchant: Id, decision: Status): Document {
    if d.merchant == merchant && d.isCurrent && decision == Approved then d.(status := DocAccepted) else d
  }

  // --- the SQL functions ----------------------------------------------------------

  /** Inserting a merchant; the trigger of migration 0005 adds the profile and its first event. */
  function Provision(t: Tables, merchant: Id): Option<Tables> {
    if merchant in t.profiles then None
    else Some(t.(profiles := t.profiles[merchant := Profile(Draft, map[], None, None, None, None, None)],
                 events := t.events + [Event(merchant, KycCreated, None, Some(Draft))]))
  }

  /** A merchant older than KYC, approved by migration 0004 with a note. */
  function Grandfather(t: Tables, merchant: Id, note: string, now: int): Option<Tables> {
    if merchant in t.profiles then None
    else
      var p := Profile(Approved, map[], Some(note), None, Some(now), Some(now), None);
      Some(t.(profiles := t.profiles[merchant := p],
              events := t.events + [Event(merchant, LegacyApproved, None, Some(Approved))]))
  }

  /** The writes of register_merchant_kyc_document, given the version it read. The update and the
      insert take effect together: the unique index over current documents aborts the function
      when another registration of the slot lands between the two. */
  function InsertDocument(t: Tables, id: Id, merchant: Id, docType: DocType, version: nat): Option<Tables> {
    if merchant !in t.profiles || exists d <- t.documents :: d.id == id then None
    else
      Some(t.(documents := Amend(t.documents, d => Retired(d, merchant, docType))
                           + [Document(id, merchant, docType, version, true, DocPending, None)],
              events := t.events + [Event(merchant, DocumentUploaded, None, None)]))
  }

  /** The whole function, when nothing runs in between. */
  function RegisterDocument(t: Tables, id: Id, merchant: Id, docType: DocType): Option<Tables> {
    InsertDocument(t, id, merchant, docType, MaxVersion(t.documents, merchant, docType) + 1)
  }

  function SubmitKyc(t: Tables, merchant: Id, now: int): Option<Tables> {
    if merchant !in t.profiles || t.profiles[merchant].status !in {Draft, NeedsChanges, Rejected} then None
    else
      var p := t.profiles[merchant];
      Some(t.(profiles := t.profiles[merchant := p.(status := Submitted, publicNote := None, submittedAt := Some(now),
                                                    reviewedAt := None, rejectedAt := None)],
              documents := Amend(t.documents, d => Reset(d, merchant)),
              events := t.events + [Event(merchant, KycSubmitted, Some(p.status), Some(Submitted))]))
  }

  function StartReview(t: Tables, merchant: Id, internalNote: string, now: int): Option<Tables> {
    if merchant !in t.profiles || t.profiles[merchant].status !in {Submitted, UnderReview} then None
    else
      var p := t.profiles[merchant];
      Some(t.(profiles := t.profiles[merchant := p.(status := UnderReview, reviewedAt := Some(now))],
              reviews := t.reviews + [Review(merchant, ActionStarted, None, NoteOf(internalNote))],
              events := t.events + [Event(merchant, ReviewStarted, Some(p.status), Some(UnderReview))]))
  }

  function Decide(t: Tables, merchant: Id, decision: Status, publicNote: string, internalNote: string, now: int)
    : Option<Tables>
  {
    if decision !in {Approved, NeedsChanges, Rejected} then None
    else if decision != Approved && Trim(publicNote) == "" then None
    else if merchant !in t.profiles || t.profiles[merchant].status !in {Submitted, UnderReview} then None
    else
      var p := t.profiles[merchant];
      Some(t.(profiles := t.profiles[merchant := p.(status := decision, publicNote := NoteOf(publicNote),
                                                    reviewedAt := Some(now),
                                                    approvedAt := if decision == Approved then Some(now) else None,
                                                    rejectedAt := if decision == Rejected then Some(now) else None)],
              documents := Amend(t.documents, d => Decision(d, merchant, decision)),
              reviews := t.reviews + [Review(merchant, ActionDecided(decision), NoteOf(publicNote),
                                             NoteOf(internalNote))],
              events := t.events + [Event(merchant, Decided, Some(p.status), Some(decision))]))
  }

  /** The PATCH of the profile's text columns. */
  function PatchText(t: Tables, merchant: Id, text: map<Field, string>): Tables {
    if merchant !in t.profiles then t
    else t.(profiles := t.profiles[merchant := t.profiles[merchant].(text := text)])
  }

  // --- the guards of the Go handlers ------------------------------------------------

  predicate EditableStatus(s: Status) {
    s == Draft || s == NeedsChanges || s == Rejected
  }

  const REQUIRED_FIELDS: seq<Field> :=
    [LegalName, TaxId, CompanyEmail, CompanyPhone, AddressLine1, City, StateCode, PostalCode, RepName, RepDocument,
     RepBirthDate, RepRole, RepEmail, RepPhone]

  const REQUIRED_DOCUMENTS: seq<DocType> := [Articles, CnpjCard, RepresentativeId, AddressProof]

  predicate Blank(s: string) {
    forall c <- s :: IsSpace(c)
  }

  function Digits(s: string): string {
    if s == [] then [] else Digits(s[..|s| - 1]) + if '0' <= s[|s| - 1] <= '9' then [s[|s| - 1]] else []
  }

  datatype Requirement = FieldRequired(field: Field) | ValidCnpj | ValidCpf | DocumentRequired(docType: DocType)

  /** When a requirement is missing from a profile and a list of documents. */
  predicate IsMissing(r: Requirement, text: map<Field, string>, docs: seq<Document>) {
    match r
    case FieldRequired(f) => f !in text || Blank(text[f])
    case ValidCnpj => TaxId in text && |Digits(text[TaxId])| != 14
    case ValidCpf => RepDocument in text && |Digits(text[RepDocument])| != 11
    case DocumentRequired(docType) =>
      docType in REQUIRED_DOCUMENTS && forall d <- docs :: d.isCurrent ==> d.docType != docType
  }

  predicate Complete(text: map<Field, string>, docs: seq<Document>) {
    && (forall f <- REQUIRED_FIELDS :: f in text && !Blank(text[f]))
    && TaxId in text && |Digits(text[TaxId])| == 14
    && RepDocument in text && |Digits(text[RepDocument])| == 11
    && (forall docType <- REQUIRED_DOCUMENTS :: exists d <- docs :: d.isCurrent && d.docType == docType)
  }

  function CurrentDocuments(docs: seq<Document>, merchant: Id): seq<Document> {
    if docs == [] then []
    else
      var last := docs[|docs| - 1];
      // Newest first, as the query orders them.
      (if last.merchant == merchant && last.isCurrent then [last] else [])
          + CurrentDocuments(docs[..|docs| - 1], merchant)
  }

  const DOCUMENT_LIMIT: nat := 100

  /** The current-only query of kycDocumentsForMerchant, with its row limit. */
  function QueryCurrent(docs: seq<Document>, merchant: Id): seq<Document> {
    var rows := CurrentDocuments(docs, merchant);
    if |rows| > DOCUMENT_LIMIT then rows[..DOCUMENT_LIMIT] else rows
  }

  // --- runs ----------------------------------------------------------------------------

  datatype Run =
    | Submitting(merchant: Id, spc: SubmitPc)
    | Uploading(merchant: Id, docType: DocType, document: Id, upc: UploadPc)
    | Editing(merchant: Id, text: map<Field, string>, epc: GuardedPc)

  /** Check the status first, act on the tables later. */
  datatype GuardedPc = CheckStatus | Act | Over

  /** The version is read without a lock: the later writes use what that read saw. */
  datatype UploadPc = CheckUpload | ReadVersion | Insert(seen: seq<Document>) | UploadOver

  datatype SubmitPc = LoadProfile | LoadDocuments(text: map<Field, string>) | CallSubmit | SubmitOver

  datatype State = State(tables: Tables, runs: map<Id, Run>)

  const INITIAL := State(EMPTY_TABLES, map[])

  datatype Action =
    | CreateMerchant(merchant: Id)
    | AdoptMerchant(merchant: Id, note: string, now: int)
    | Start(run: Id, kind: Run)
    | Advance(run: Id, now: int)
    | ReviewStart(merchant: Id, note: string, now: int)
    | DecideCase(merchant: Id, decision: Status, publicNote: string, internalNote: string, now: int)

  function OrSame(t: Tables, r: Option<Tables>): Tables {
    if r.Some? then r.value else t
  }

  function Fresh(run: Run): Run {
    match run
    case Submitting(m, _) => Submitting(m, LoadProfile)
    case Uploading(m, ty, id, _) => Uploading(m, ty, id, CheckUpload)
    case Editing(m, text, _) => Editing(m, text, CheckStatus)
  }

  function Step(t: Tables, run: Run, now: int): (Tables, Run) {
    match run
    case Submitting(m, LoadProfile) =>
      (t, Submitting(m, if m in t.profiles then LoadDocuments(t.profiles[m].text) else SubmitOver))
    case Submitting(m, LoadDocuments(text)) =>
      (t, Submitting(m, if Complete(text, QueryCurrent(t.documents, m)) then CallSubmit else SubmitOver))
    case Submitting(m, CallSubmit) => (OrSame(t, SubmitKyc(t, m, now)), Submitting(m, SubmitOver))
    case Submitting(_, SubmitOver) => (t, run)
    case Uploading(m, ty, id, CheckUpload) =>
      (t, Uploading(m, ty, id, if AfterStatusCheck(t, m).Act? then ReadVersion else UploadOver))
    case Uploading(m, ty, id, ReadVersion) => (t, Uploading(m, ty, id, Insert(t.documents)))
    case Uploading(m, ty, id, Insert(seen)) =>
      (OrSame(t, InsertDocument(t, id, m, ty, MaxVersion(seen, m, ty) + 1)), Uploading(m, ty, id, UploadOver))
    case Uploading(_, _, _, UploadOver) => (t, run)
    case Editing(m, text, CheckStatus) => (t, Editing(m, text, AfterStatusCheck(t, m)))
    case Editing(m, text, Act) => (PatchText(t, m, text), Editing(m, text, Over))
    case Editing(_, _, Over) => (t, run)
  }

  function AfterStatusCheck(t: Tables, merchant: Id): GuardedPc {
    if merchant in t.profiles && EditableStatus(t.profiles[merchant].status) then Act else Over
  }

  function Next(s: State, a: Action): State {
    match a
    case CreateMerchant(m) => s.(tables := OrSame(s.tables, Provision(s.tables, m)))
    case AdoptMerchant(m, note, now) => s.(tables := OrSame(s.tables, Grandfather(s.tables, m, note, now)))
    case Start(r, run) => if r in s.runs then s else s.(runs := s.runs[r := Fresh(run)])
    case Advance(r, now) =>
      if r !in s.runs then s
      else
        var (t, run) := Step(s.tables, s.runs[r], now);
        State(t, s.runs[r := run])
    case ReviewStart(m, note, now) => s.(tables := OrSame(s.tables, StartReview(s.tables, m, note, now)))
    case DecideCase(m, decision, publicNote, internalNote, now) =>
      s.(tables := OrSame(s.tables, Decide(s.tables, m, decision, publicNote, internalNote, now)))
  }

  function Exec(s: State, history: seq<Action>): State
    decreases |history|
  {
    if history == [] then s else Exec(Next(s, history[0]), history[1..])
  }
}
