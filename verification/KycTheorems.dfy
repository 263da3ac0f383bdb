/** What holds after every history of the KYC handlers. */
module KycTheorems {
  import opened Wrappers
  import opened Kyc
  import opened KycSafety
  import opened KycVersions

  function Reached(history: seq<Action>): Tables {
    Exec(INITIAL, history).tables
  }

  lemma ReachedInv(history: seq<Action>)
    ensures Inv(Exec(INITIAL, history))
  {
    InitialInv();
    ExecKeepsInv(INITIAL, history);
  }

  /** A merchant that is submitted, under review or approved, and was not grandfathered, has a
      current document of each required type, even when uploads and edits raced with the submission. */
  lemma ReviewedMerchantsAreDocumented(history: seq<Action>, merchant: Id, docType: DocType)
    requires var t := Reached(history);
             merchant in t.profiles && t.profiles[merchant].status in {Submitted, UnderReview, Approved}
             && !HasEvent(t.events, merchant, LegacyApproved)
    requires docType in REQUIRED_DOCUMENTS
    ensures HasCurrent(Reached(history).documents, merchant, docType)
  {
    ReachedInv(history);
    var t := Reached(history);
    assert MerchantOk(t, merchant);
    CurrentIffRegistered(t.documents, merchant, docType);
  }

  /** The status-bearing events of a merchant form an unbroken chain of legal transitions that
      ends at the profile's status, and the review rows list exactly its review events. */
  lemma EventsExplainTheStatus(history: seq<Action>, merchant: Id)
    ensures var t := Reached(history);
            && Replay(t.events, merchant) == Some(StatusOf(t, merchant))
            && (forall e <- t.events :: LegalEdge(e))
            && ActionsInReviews(t.reviews, merchant) == ActionsInEvents(t.events, merchant)
  {
    ReachedInv(history);
    assert MerchantOk(Reached(history), merchant);
  }

  /** Every approval that is not grandfathered was preceded by a submission. */
  lemma ApprovalGoesThroughSubmission(history: seq<Action>, merchant: Id)
    requires var t := Reached(history);
             merchant in t.profiles && t.profiles[merchant].status == Approved
                 && !HasEvent(t.events, merchant, LegacyApproved)
    ensures HasEvent(Reached(history).events, merchant, KycSubmitted)
  {
    ReachedInv(history);
    assert MerchantOk(Reached(history), merchant);
    OnlySubmissionsLeaveDraft(Reached(history).events, merchant);
  }

  /** No step leaves approved, and after it only an edit that passed its check earlier can touch
      the row, in its text columns. */
  lemma ApprovedIsFinal(history: seq<Action>, more: seq<Action>, merchant: Id)
    requires var t := Reached(history); merchant in t.profiles && t.profiles[merchant].status == Approved
    ensures var t, t' := Reached(history), Exec(Exec(INITIAL, history), more).tables;
            && merchant in t'.profiles
            && t'.profiles[merchant] == t.profiles[merchant].(text := t'.profiles[merchant].text)
            && t.events <= t'.events
  {
    ReachedInv(history);
    ExecKeepsInv(Exec(INITIAL, history), more);
  }

  /** At most one document of a merchant and type is current: the last one registered. */
  lemma CurrentIsTheLastRegistered(history: seq<Action>, i: nat)
    requires i < |Reached(history).documents|
    ensures var docs := Reached(history).documents;
            docs[i].isCurrent <==> forall j :: i < j < |docs| ==> !SameSlot(docs[j], docs[i].merchant, docs[i].docType)
  {
    ReachedInv(history);
    var docs := Reached(history).documents;
    var m, ty := docs[i].merchant, docs[i].docType;
    forall j | i < j < |docs| && SameSlot(docs[j], m, ty) ensures !docs[i].isCurrent {
      LaterPlaceIsHigher(docs, i, j);
      CountGrows(docs, j + 1, m, ty);
    }
    if !docs[i].isCurrent {
      CountGrows(docs, i + 1, m, ty);
      var last := LastOfSlot(docs, m, ty);
      assert Place(docs, last) == Count(docs, m, ty);
      if last < i { LaterPlaceIsHigher(docs, last, i); }
    }
  }

  /** The versions of a merchant and type number its documents 1, 2, 3, ... in order of
      registration if and only if no registration was overtaken by another one between its
      version read and its write. */
  lemma VersionsInOrderExactlyWithoutOvertaking(history: seq<Action>, merchant: Id, docType: DocType)
    ensures InOrder(Reached(history).documents, merchant, docType)
            <==> !MeetsOvertaking(INITIAL, history, merchant, docType)
  {
    ReachedNumbers(history, merchant, docType);
  }

  /** Then they are exactly 1..n, each taken once, and the current document is version n. */
  lemma VersionsAreConsecutive(history: seq<Action>, merchant: Id, docType: DocType, v: nat) returns (at: nat)
    requires !MeetsOvertaking(INITIAL, history, merchant, docType)
    requires 1 <= v <= Count(Reached(history).documents, merchant, docType)
    ensures var docs := Reached(history).documents;
            && at < |docs| && SameSlot(docs[at], merchant, docType) && docs[at].version == v
            && (docs[at].isCurrent <==> v == Count(docs, merchant, docType))
            && (forall k :: 0 <= k < |docs| && SameSlot(docs[k], merchant, docType) && docs[k].version == v ==> k == at)
  {
    ReachedInv(history);
    ReachedNumbers(history, merchant, docType);
    var docs := Reached(history).documents;
    InOrderMax(docs, merchant, docType);
    at := EveryVersionIsTaken(docs, merchant, docType, v);
    forall k | 0 <= k < |docs| && SameSlot(docs[k], merchant, docType) && docs[k].version == v ensures k == at {
      if k < at { LaterPlaceIsHigher(docs, k, at); }
      if at < k { LaterPlaceIsHigher(docs, at, k); }
    }
  }

  /** However registrations overlap, no version is skipped. */
  lemma NoVersionIsSkipped(history: seq<Action>, merchant: Id, docType: DocType, v: nat) returns (at: nat)
    requires 1 <= v <= MaxVersion(Reached(history).documents, merchant, docType)
    ensures var docs := Reached(history).documents;
            at < |docs| && SameSlot(docs[at], merchant, docType) && docs[at].version == v
  {
    ReachedNumbers(history, merchant, docType);
    at := EveryVersionIsTaken(Reached(history).documents, merchant, docType, v);
  }

  lemma {:induction false} Play(h: seq<Action>, a: Action) returns (h': seq<Action>)
    ensures h' == h + [a] && Exec(INITIAL, h') == Next(Exec(INITIAL, h), a)
  {
    h' := h + [a];
    ExecAppend(INITIAL, h, a);
  }

  lemma {:induction false} ExecAppend(s: State, h: seq<Action>, a: Action)
    ensures Exec(s, h + [a]) == Next(Exec(s, h), a)
    decreases |h|
  {
    if h == [] {
      assert [a][1..] == [];
    } else {
      assert (h + [a])[1..] == h[1..] + [a];
      ExecAppend(Next(s, h[0]), h[1..], a);
    }
  }

  /** Two uploads of one merchant have read an empty slot. */
  lemma TwoReads() returns (history: seq<Action>)
    ensures var s := Exec(INITIAL, history);
            && s.runs == map[10 := Uploading(1, Articles, 100, Insert([])),
                             20 := Uploading(1, Articles, 200, Insert([]))]
            && s.tables.documents == [] && 1 in s.tables.profiles
  {
    history := Play([], CreateMerchant(1));
    history := Play(history, Start(10, Uploading(1, Articles, 100, CheckUpload)));
    history := Play(history, Advance(10, 0));
    history := Play(history, Advance(10, 0));
    history := Play(history, Start(20, Uploading(1, Articles, 200, CheckUpload)));
    history := Play(history, Advance(20, 0));
    history := Play(history, Advance(20, 0));
  }

  /** Such an overtaking happens: a history in which two uploads register version 1. */
  lemma TwoUploadsShareAVersion() returns (history: seq<Action>)
    ensures Reached(history).documents == [Document(200, 1, Articles, 1, false, DocPending, None),
                                           Document(100, 1, Articles, 1, true, DocPending, None)]
  {
    history := TwoReads();
    history := Play(history, Advance(20, 0));
    assert Reached(history).documents == [Document(200, 1, Articles, 1, true, DocPending, None)];
    history := Play(history, Advance(10, 0));
  }

  /** The 100-row current-only query returns every current document of the merchant. */
  lemma CurrentQueryIsComplete(history: seq<Action>, merchant: Id, d: Document)
    ensures var docs := Reached(history).documents;
            d in QueryCurrent(docs, merchant) <==> d in docs && d.merchant == merchant && d.isCurrent
  {
    ReachedInv(history);
    LimitDropsNothing(Reached(history).documents, merchant);
  }

  /** Timestamps and note follow the status. */
  lemma ProfileFollowsStatus(history: seq<Action>, merchant: Id)
    requires merchant in Reached(history).profiles
    ensures var p := Reached(history).profiles[merchant];
            && (p.approvedAt.Some? <==> p.status == Approved)
            && (p.rejectedAt.Some? <==> p.status == Rejected)
            && (p.reviewedAt.Some? <==> p.status in {UnderReview, NeedsChanges, Approved, Rejected})
            && (p.status in {Submitted, UnderReview} ==> p.publicNote.None? && p.submittedAt.Some?)
            && (p.status in {NeedsChanges, Rejected} ==> p.publicNote.Some? && p.publicNote.value != "")
  {
    ReachedInv(history);
    assert MerchantOk(Reached(history), merchant);
  }
}
