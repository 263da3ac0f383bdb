/** What each KYC function leaves in the tables when it is allowed, and that it leaves them alone when
    it is not. */
module KycRecords {
  import opened Wrappers
  import opened Kyc

  predicate OnlySpaces(note: string) {
    forall i :: 0 <= i < |note| ==> note[i] == ' '
  }

  /** The stored form of a note: nothing for a blank one, otherwise the note without the spaces
      around it. */
  ghost predicate IsNote(stored: Option<string>, note: string) {
    if OnlySpaces(note) then stored == None
    else exists i, j :: 0 <= i < j <= |note| && stored == Some(note[i..j]) && note[i] != ' ' && note[j - 1] != ' '
                        && OnlySpaces(note[..i]) && OnlySpaces(note[j..])
  }

  lemma {:induction false} LeftTrimmed(s: string) returns (i: nat)
    ensures i <= |s| && TrimLeft(s) == s[i..] && OnlySpaces(s[..i]) && (i < |s| ==> s[i] != ' ')
  {
    if s != [] && s[0] == ' ' {
      var k := LeftTrimmed(s[1..]);
      i := k + 1;
      assert s[1..][k..] == s[i..] && forall x :: 0 < x < i ==> s[x] == s[1..][..k][x - 1];
    } else {
      i := 0;
    }
  }

  lemma {:induction false} RightTrimmed(s: string) returns (j: nat)
    ensures j <= |s| && TrimRight(s) == s[..j] && OnlySpaces(s[j..]) && (j > 0 ==> s[j - 1] != ' ')
  {
    if s != [] && s[|s| - 1] == ' ' {
      j := RightTrimmed(s[..|s| - 1]);
      assert forall x :: 0 <= x < |s| - 1 - j ==> s[j..][x] == s[..|s| - 1][j..][x];
    } else {
      j := |s|;
    }
  }

  /** nullif(trim(note), '') is the stored form. */
  lemma NoteIsStored(note: string)
    ensures IsNote(NoteOf(note), note)
    ensures Trim(note) == "" <==> OnlySpaces(note)
  {
    var i := LeftTrimmed(note);
    var rest := note[i..];
    var k := RightTrimmed(rest);
    var j := i + k;
    assert Trim(note) == rest[..k] == note[i..j];
    assert forall x :: 0 <= x < |note| - j ==> note[j..][x] == rest[k..][x];
    if k > 0 {
      assert note[i] != ' ' && note[j - 1] == rest[k - 1];
      assert !OnlySpaces(note);
    } else {
      assert i == |note|;
      assert note == note[..i];
    }
  }

  /** The documents after a change to the current ones of a merchant. */
  ghost predicate CurrentChanged(docs: seq<Document>, docs': seq<Document>, merchant: Id, f: Document -> Document) {
    && |docs'| == |docs|
    && forall i :: 0 <= i < |docs| ==>
         docs'[i] == if docs[i].merchant == merchant && docs[i].isCurrent then f(docs[i]) else docs[i]
  }

  ghost predicate MayDecide(t: Tables, merchant: Id, decision: Status, publicNote: string) {
    && decision in {Approved, NeedsChanges, Rejected} && (decision != Approved ==> !OnlySpaces(publicNote))
    && merchant in t.profiles && t.profiles[merchant].status in {Submitted, UnderReview}
  }

  /** A decision records the status, the public note, the times, a review with both notes and an
      event, and accepts the current documents when it approves; a decision that is not allowed
      changes nothing. */
  lemma DecisionIsRecorded(s: State, merchant: Id, decision: Status, publicNote: string, internalNote: string, now: int)
    ensures var t, t' := s.tables, Next(s, DecideCase(merchant, decision, publicNote, internalNote, now)).tables;
            if !MayDecide(t, merchant, decision, publicNote) then t' == t
            else
              && t'.profiles.Keys == t.profiles.Keys
              && (forall m <- t.profiles :: m != merchant ==> t'.profiles[m] == t.profiles[m])
              && var p, p' := t.profiles[merchant], t'.profiles[merchant];
                 && p'.status == decision && p'.text == p.text && p'.submittedAt == p.submittedAt
                 && IsNote(p'.publicNote, publicNote) && p'.reviewedAt == Some(now)
                 && p'.approvedAt == (if decision == Approved then Some(now) else None)
                 && p'.rejectedAt == (if decision == Rejected then Some(now) else None)
                 && t'.events == t.events + [Event(merchant, Decided, Some(p.status), Some(decision))]
                 && |t'.reviews| == |t.reviews| + 1 && t.reviews <= t'.reviews
                 && var r := t'.reviews[|t.reviews|];
                    && r.merchant == merchant && r.action == ActionDecided(decision)
                    && IsNote(r.publicNote, publicNote) && IsNote(r.internalNote, internalNote)
    ensures var t, t' := s.tables, Next(s, DecideCase(merchant, decision, publicNote, internalNote, now)).tables;
            MayDecide(t, merchant, decision, publicNote) ==>
              CurrentChanged(t.documents, t'.documents, merchant,
                             (d: Document) => if decision == Approved then d.(status := DocAccepted) else d)
  {
    NoteIsStored(publicNote);
    NoteIsStored(internalNote);
    hide IsNote, NoteOf, Trim, OnlySpaces;
  }

  /** Starting a review records the time, a review with its note and an event. */
  lemma ReviewStartIsRecorded(s: State, merchant: Id, note: string, now: int)
    ensures var t, t' := s.tables, Next(s, ReviewStart(merchant, note, now)).tables;
            if merchant !in t.profiles || t.profiles[merchant].status !in {Submitted, UnderReview} then t' == t
            else
              var p := t.profiles[merchant];
              && t'.profiles == t.profiles[merchant := p.(status := UnderReview, reviewedAt := Some(now))]
              && t'.documents == t.documents
              && t'.events == t.events + [Event(merchant, ReviewStarted, Some(p.status), Some(UnderReview))]
              && |t'.reviews| == |t.reviews| + 1 && t.reviews <= t'.reviews
              && var r := t'.reviews[|t.reviews|];
                 && r.merchant == merchant && r.action == ActionStarted
                 && r.publicNote.None? && IsNote(r.internalNote, note)
  {
    NoteIsStored(note);
    hide IsNote, NoteOf;
  }

  /** A submission that lands clears the earlier outcome, returns the current documents to pending
      without feedback and records an event. */
  lemma SubmissionIsRecorded(s: State, rid: Id, merchant: Id, now: int)
    requires rid in s.runs && s.runs[rid] == Submitting(merchant, CallSubmit)
    ensures var t, t' := s.tables, Next(s, Advance(rid, now)).tables;
            if merchant !in t.profiles || !EditableStatus(t.profiles[merchant].status) then t' == t
            else
              var p := t.profiles[merchant];
              && t'.profiles
                 == t.profiles[merchant := Profile(Submitted, p.text, None, Some(now), None, p.approvedAt, None)]
              && t'.reviews == t.reviews
              && t'.events == t.events + [Event(merchant, KycSubmitted, Some(p.status), Some(Submitted))]
              && CurrentChanged(t.documents, t'.documents, merchant,
                                (d: Document) => d.(status := DocPending, feedback := None))
  {
  }

  /** A registration that lands adds a pending current document and retires the others of its slot. */
  lemma RegistrationIsRecorded(s: State, rid: Id, merchant: Id, docType: DocType, id: Id, seen: seq<Document>, now: int)
    requires rid in s.runs && s.runs[rid] == Uploading(merchant, docType, id, Insert(seen))
    ensures var t, t' := s.tables, Next(s, Advance(rid, now)).tables;
            if merchant !in t.profiles || (exists d <- t.documents :: d.id == id) then t' == t
            else
              && t'.profiles == t.profiles && t'.reviews == t.reviews
              && t'.events == t.events + [Event(merchant, DocumentUploaded, None, None)]
              && |t'.documents| == |t.documents| + 1
              && t'.documents[|t.documents|]
                 == Document(id, merchant, docType, MaxVersion(seen, merchant, docType) + 1, true, DocPending, None)
              && forall i :: 0 <= i < |t.documents| ==>
                   t'.documents[i] == if SameSlot(t.documents[i], merchant, docType)
                                      then t.documents[i].(isCurrent := false) else t.documents[i]
  {
  }

  /** An edit with nothing in between replaces the text columns, and nothing else, exactly when the
      profile is open to edits. */
  lemma EditTakesEffectExactlyWhenEditable(s: State, rid: Id, merchant: Id, text: map<Field, string>, now: int)
    requires rid in s.runs && s.runs[rid] == Editing(merchant, text, CheckStatus)
    ensures var t, t' := s.tables, Next(Next(s, Advance(rid, now)), Advance(rid, now)).tables;
            if merchant !in t.profiles || t.profiles[merchant].status !in {Draft, NeedsChanges, Rejected} then t' == t
            else t' == t.(profiles := t.profiles[merchant := t.profiles[merchant].(text := text)])
  {
  }

  /** An upload with nothing in between registers its document, one version above all others of its
      slot, exactly when the profile is open to edits and the document is new. */
  lemma UploadTakesEffectExactlyWhenEditable(s: State, rid: Id, merchant: Id, docType: DocType, id: Id, now: int)
    requires rid in s.runs && s.runs[rid] == Uploading(merchant, docType, id, CheckUpload)
    ensures var t := s.tables;
            var t' := Next(Next(Next(s, Advance(rid, now)), Advance(rid, now)), Advance(rid, now)).tables;
            if merchant !in t.profiles || t.profiles[merchant].status !in {Draft, NeedsChanges, Rejected}
               || (exists d <- t.documents :: d.id == id)
            then t' == t
            else
              && t'.profiles == t.profiles && |t'.documents| == |t.documents| + 1
              && var d := t'.documents[|t.documents|];
                 && d.(version := 0) == Document(id, merchant, docType, 0, true, DocPending, None)
                 && forall i :: 0 <= i < |t.documents| && SameSlot(t.documents[i], merchant, docType) ==>
                      t.documents[i].version < d.version && !t'.documents[i].isCurrent
  {
    var t := s.tables;
    forall i | 0 <= i < |t.documents| && SameSlot(t.documents[i], merchant, docType)
      ensures t.documents[i].version <= MaxVersion(t.documents, merchant, docType)
    {
      MaxIsAtLeast(t.documents, merchant, docType, i);
    }
  }

  lemma {:induction false} MaxIsAtLeast(docs: seq<Document>, merchant: Id, docType: DocType, i: nat)
    requires i < |docs| && SameSlot(docs[i], merchant, docType)
    ensures docs[i].version <= MaxVersion(docs, merchant, docType)
  {
    if i < |docs| - 1 { MaxIsAtLeast(docs[..|docs| - 1], merchant, docType, i); }
  }
}
