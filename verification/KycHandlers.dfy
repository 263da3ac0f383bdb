/** The KYC tables as an object changed in place by the SQL functions, and the handlers' own loops. */
module KycHandlers {
  import opened Wrappers
  import opened Kyc

  class KycDatabase {
    var profiles: map<Id, Profile>
    var documents: seq<Document>
    var reviews: seq<Review>
    var events: seq<Event>

    function Contents(): Tables
      reads this
    {
      Tables(profiles, documents, reviews, events)
    }

    method NextVersion(merchant: Id, docType: DocType) returns (version: nat)
      ensures version == MaxVersion(documents, merchant, docType) + 1
    {
      var max := 0;
      for i := 0 to |documents|
        invariant max == MaxVersion(documents[..i], merchant, docType)
      {
        assert documents[..i + 1][..i] == documents[..i];
        if SameSlot(documents[i], merchant, docType) && documents[i].version > max {
          max := documents[i].version;
        }
      }
      assert documents[..|documents|] == documents;
      return max + 1;
    }

    /** UPDATE ... SET is_current = false, row by row. */
    method RetireCurrent(merchant: Id, docType: DocType)
      modifies this`documents
      ensures documents == Amend(old(documents), d => Retired(d, merchant, docType))
    {
      var done: seq<Document> := [];
      for i := 0 to |documents|
        invariant |done| == i && documents == old(documents)
        invariant forall k :: 0 <= k < i ==> done[k] == Retired(documents[k], merchant, docType)
      {
        var d := documents[i];
        if SameSlot(d, merchant, docType) && d.isCurrent {
          d := d.(isCurrent := false);
        }
        done := done + [d];
      }
      documents := done;
    }

    method RegisterMerchantKycDocument(id: Id, merchant: Id, docType: DocType) returns (ok: bool)
      modifies this`documents, this`events
      ensures var r := RegisterDocument(old(Contents()), id, merchant, docType);
              ok == r.Some? && Contents() == if ok then r.value else old(Contents())
    {
      if merchant !in profiles || exists d <- documents :: d.id == id { return false; }
      var version := NextVersion(merchant, docType);
      RetireCurrent(merchant, docType);
      documents := documents + [Document(id, merchant, docType, version, true, DocPending, None)];
      events := events + [Event(merchant, DocumentUploaded, None, None)];
      return true;
    }

    method SubmitMerchantKyc(merchant: Id, now: int) returns (ok: bool)
      modifies this`profiles, this`documents, this`events
      ensures var r := SubmitKyc(old(Contents()), merchant, now);
              ok == r.Some? && Contents() == if ok then r.value else old(Contents())
    {
      if merchant !in profiles { return false; }
      var p := profiles[merchant];
      if p.status != Draft && p.status != NeedsChanges && p.status != Rejected { return false; }
      profiles := profiles[merchant := p.(status := Submitted, publicNote := None, submittedAt := Some(now),
                                          reviewedAt := None, rejectedAt := None)];
      documents := Amend(documents, d => Reset(d, merchant));
      events := events + [Event(merchant, KycSubmitted, Some(p.status), Some(Submitted))];
      return true;
    }

    method StartMerchantKycReview(merchant: Id, internalNote: string, now: int) returns (ok: bool)
      modifies this`profiles, this`reviews, this`events
      ensures var r := StartReview(old(Contents()), merchant, internalNote, now);
              ok == r.Some? && Contents() == if ok then r.value else old(Contents())
    {
      if merchant !in profiles { return false; }
      var p := profiles[merchant];
      if p.status != Submitted && p.status != UnderReview { return false; }
      profiles := profiles[merchant := p.(status := UnderReview, reviewedAt := Some(now))];
      reviews := reviews + [Review(merchant, ActionStarted, None, NoteOf(internalNote))];
      events := events + [Event(merchant, ReviewStarted, Some(p.status), Some(UnderReview))];
      return true;
    }

    method DecideMerchantKyc(merchant: Id, decision: Status, publicNote: string, internalNote: string, now: int)
      returns (ok: bool)
      modifies this
      ensures var r := Decide(old(Contents()), merchant, decision, publicNote, internalNote, now);
              ok == r.Some? && Contents() == if ok then r.value else old(Contents())
    {
      if decision != Approved && decision != NeedsChanges && decision != Rejected { return false; }
      if decision != Approved && Trim(publicNote) == "" { return false; }
      if merchant !in profiles { return false; }
      var p := profiles[merchant];
      if p.status != Submitted && p.status != UnderReview { return false; }
      p := p.(status := decision, publicNote := NoteOf(publicNote), reviewedAt := Some(now));
      p := p.(approvedAt := if decision == Approved then Some(now) else None);
      p := p.(rejectedAt := if decision == Rejected then Some(now) else None);
      events := events + [Event(merchant, Decided, Some(profiles[merchant].status), Some(decision))];
      profiles := profiles[merchant := p];
      documents := Amend(documents, d => Decision(d, merchant, decision));
      reviews := reviews + [Review(merchant, ActionDecided(decision), NoteOf(publicNote), NoteOf(internalNote))];
      return true;
    }
  }

  /** onlyDigits: the characters '0' to '9', in order. */
  method OnlyDigits(s: string) returns (digits: string)
    ensures digits == Digits(s)
    ensures forall c <- digits :: '0' <= c <= '9'
  {
    digits := "";
    for i := 0 to |s|
      invariant digits == Digits(s[..i])
      invariant forall c <- digits :: '0' <= c <= '9'
    {
      assert s[..i + 1][..i] == s[..i];
      if '0' <= s[i] <= '9' {
        digits := digits + [s[i]];
      }
    }
    assert s[..|s|] == s;
  }

  /** missingKYCRequirements: everything that is missing, and nothing else. */
  method MissingRequirements(text: map<Field, string>, docs: seq<Document>) returns (missing: seq<Requirement>)
    ensures forall r :: r in missing <==> IsMissing(r, text, docs)
    ensures missing == [] <==> Complete(text, docs)
  {
    missing := [];
    for i := 0 to |REQUIRED_FIELDS|
      invariant forall r ::
                  r in missing <==> r.FieldRequired? && r.field in REQUIRED_FIELDS[..i] && IsMissing(r, text, docs)
    {
      var f := REQUIRED_FIELDS[i];
      if f !in text || Blank(text[f]) {
        missing := missing + [FieldRequired(f)];
      }
      assert REQUIRED_FIELDS[..i + 1] == REQUIRED_FIELDS[..i] + [f];
    }
    AllFieldsListed();
    if TaxId in text && |Digits(text[TaxId])| != 14 {
      missing := missing + [ValidCnpj];
    }
    if RepDocument in text && |Digits(text[RepDocument])| != 11 {
      missing := missing + [ValidCpf];
    }
    var current: set<DocType> := {};
    for i := 0 to |docs|
      invariant current == set d <- docs[..i] | d.isCurrent :: d.docType
    {
      if docs[i].isCurrent {
        current := current + {docs[i].docType};
      }
      assert docs[..i + 1] == docs[..i] + [docs[i]];
    }
    assert docs[..|docs|] == docs;
    ghost var before := missing;
    for i := 0 to |REQUIRED_DOCUMENTS|
      invariant forall r :: r in missing <==>
                              r in before || (r.DocumentRequired? && r.docType in REQUIRED_DOCUMENTS[..i]
                                              && r.docType !in current)
    {
      var docType := REQUIRED_DOCUMENTS[i];
      if docType !in current {
        missing := missing + [DocumentRequired(docType)];
      }
      assert REQUIRED_DOCUMENTS[..i + 1] == REQUIRED_DOCUMENTS[..i] + [docType];
    }
    assert REQUIRED_DOCUMENTS[..|REQUIRED_DOCUMENTS|] == REQUIRED_DOCUMENTS;
    CompleteIffNothingMissing(text, docs, missing);
  }

  lemma AllFieldsListed()
    ensures forall f: Field :: f in REQUIRED_FIELDS
    ensures REQUIRED_FIELDS[..|REQUIRED_FIELDS|] == REQUIRED_FIELDS
  {
    forall f: Field ensures f in REQUIRED_FIELDS {
      var at := match f
        case LegalName => 0 case TaxId => 1 case CompanyEmail => 2 case CompanyPhone => 3 case AddressLine1 => 4
        case City => 5 case StateCode => 6 case PostalCode => 7 case RepName => 8 case RepDocument => 9
        case RepBirthDate => 10 case RepRole => 11 case RepEmail => 12 case RepPhone => 13;
      assert REQUIRED_FIELDS[at] == f;
    }
  }

  lemma CompleteIffNothingMissing(text: map<Field, string>, docs: seq<Document>, missing: seq<Requirement>)
    requires forall r :: r in missing <==> IsMissing(r, text, docs)
    ensures missing == [] <==> Complete(text, docs)
  {
    AllFieldsListed();
    if missing == [] {
      forall f: Field ensures f in text && !Blank(text[f]) { assert !IsMissing(FieldRequired(f), text, docs); }
      assert !IsMissing(ValidCnpj, text, docs) && !IsMissing(ValidCpf, text, docs);
      forall docType <- REQUIRED_DOCUMENTS ensures exists d <- docs :: d.isCurrent && d.docType == docType {
        assert !IsMissing(DocumentRequired(docType), text, docs);
      }
    } else {
      assert IsMissing(missing[0], text, docs);
    }
  }

  /** consoleSubmitKYC run without interference: load the profile, load the documents, check,
      submit. It submits exactly when the check finds nothing missing and the status allows it. */
  method ConsoleSubmitKyc(db: KycDatabase, merchant: Id, now: int) returns (ok: bool)
    modifies db`profiles, db`documents, db`events
    ensures var t := old(db.Contents());
            && ok == (merchant in t.profiles && Complete(t.profiles[merchant].text, QueryCurrent(t.documents, merchant))
                      && EditableStatus(t.profiles[merchant].status))
            && db.Contents() == if ok then SubmitKyc(t, merchant, now).value else t
  {
    if merchant !in db.profiles { return false; }
    var text := db.profiles[merchant].text;
    var missing := MissingRequirements(text, QueryCurrent(db.documents, merchant));
    if missing != [] { return false; }
    ok := db.SubmitMerchantKyc(merchant, now);
  }
}
