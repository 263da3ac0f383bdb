/** Document versions. A registration reads the highest version without a lock and writes later, so
    two overlapping uploads of one type can take the same version. */
module KycVersions {
  import opened Wrappers
  import opened Kyc
  import opened KycSafety

  /** The documents of a slot are numbered 1, 2, 3, ... in order of registration. */
  ghost predicate InOrder(docs: seq<Document>, merchant: Id, docType: DocType) {
    forall i :: 0 <= i < |docs| && SameSlot(docs[i], merchant, docType) ==> docs[i].version == Place(docs, i)
  }

  /** A version is at most one above those registered before. */
  ghost predicate NoLeap(docs: seq<Document>, i: nat)
    requires i < |docs|
  {
    1 <= docs[i].version <= MaxVersion(docs[..i], docs[i].merchant, docs[i].docType) + 1
  }

  /** A registration is about to write a version although another one of its slot landed after it
      read the versions. */
  predicate Overtaken(s: State, a: Action, merchant: Id, docType: DocType) {
    && a.Advance? && a.run in s.runs
    && match s.runs[a.run]
       case Uploading(m, ty, id, Insert(seen)) =>
         && m == merchant && ty == docType
         && InsertDocument(s.tables, id, m, ty, 0).Some?
         && Count(seen, m, ty) != Count(s.tables.documents, m, ty)
       case _ => false
  }

  predicate MeetsOvertaking(s: State, history: seq<Action>, merchant: Id, docType: DocType)
    decreases |history|
  {
    history != [] && (Overtaken(s, history[0], merchant, docType)
                      || MeetsOvertaking(Next(s, history[0]), history[1..], merchant, docType))
  }

  // --- what a read has seen stays ------------------------------------------------------------

  predicate SameNumber(d: Document, e: Document) {
    d.merchant == e.merchant && d.docType == e.docType && d.version == e.version
  }

  /** `seen` is an earlier state of the document table. */
  ghost predicate Grows(seen: seq<Document>, docs: seq<Document>) {
    |seen| <= |docs| && forall i :: 0 <= i < |seen| ==> SameNumber(seen[i], docs[i])
  }

  lemma {:induction false} SameNumbersCount(a: seq<Document>, b: seq<Document>, merchant: Id, docType: DocType)
    requires |a| == |b| && Grows(a, b)
    ensures Count(a, merchant, docType) == Count(b, merchant, docType)
    ensures MaxVersion(a, merchant, docType) == MaxVersion(b, merchant, docType)
  {
    if a != [] { SameNumbersCount(a[..|a| - 1], b[..|b| - 1], merchant, docType); }
  }

  lemma {:induction false} MaxVersionGrows(docs: seq<Document>, n: nat, merchant: Id, docType: DocType)
    requires n <= |docs|
    ensures MaxVersion(docs[..n], merchant, docType) <= MaxVersion(docs, merchant, docType)
  {
    if n < |docs| {
      assert docs[..|docs| - 1][..n] == docs[..n];
      MaxVersionGrows(docs[..|docs| - 1], n, merchant, docType);
    } else {
      assert docs[..n] == docs;
    }
  }

  lemma SeenIsAPrefix(seen: seq<Document>, docs: seq<Document>, merchant: Id, docType: DocType)
    requires Grows(seen, docs)
    ensures Count(seen, merchant, docType) == Count(docs[..|seen|], merchant, docType) <= Count(docs, merchant, docType)
    ensures MaxVersion(seen, merchant, docType) == MaxVersion(docs[..|seen|], merchant, docType)
                                                <= MaxVersion(docs, merchant, docType)
  {
    SameNumbersCount(seen, docs[..|seen|], merchant, docType);
    CountGrows(docs, |seen|, merchant, docType);
    MaxVersionGrows(docs, |seen|, merchant, docType);
  }

  lemma {:induction false} InOrderMax(docs: seq<Document>, merchant: Id, docType: DocType)
    requires InOrder(docs, merchant, docType)
    ensures MaxVersion(docs, merchant, docType) == Count(docs, merchant, docType)
  {
    if docs != [] {
      var front := docs[..|docs| - 1];
      PrefixInOrder(docs, |docs| - 1, merchant, docType);
      InOrderMax(front, merchant, docType);
      assert docs[..|docs|] == docs;
    }
  }

  lemma PrefixInOrder(docs: seq<Document>, n: nat, merchant: Id, docType: DocType)
    requires n <= |docs| && InOrder(docs, merchant, docType)
    ensures InOrder(docs[..n], merchant, docType)
  {
    forall i | 0 <= i < n ensures Place(docs[..n], i) == Place(docs, i) { assert docs[..n][..i + 1] == docs[..i + 1]; }
  }

  // --- each step ---------------------------------------------------------------------------

  ghost predicate NumbersOk(s: State) {
    && (forall i :: 0 <= i < |s.tables.documents| ==> NoLeap(s.tables.documents, i))
    && (forall r <- s.runs :: s.runs[r].Uploading? && s.runs[r].upc.Insert? ==>
        Grows(s.runs[r].upc.seen, s.tables.documents))
  }

  lemma SameNumbersKeep(docs: seq<Document>, docs': seq<Document>)
    requires |docs| == |docs'| && Grows(docs, docs')
    ensures (forall i :: 0 <= i < |docs| ==> NoLeap(docs, i)) ==> forall i :: 0 <= i < |docs'| ==> NoLeap(docs', i)
    ensures forall m, ty :: InOrder(docs', m, ty) <==> InOrder(docs, m, ty)
  {
    forall i | 0 <= i < |docs|
      ensures Place(docs', i) == Place(docs, i)
      ensures MaxVersion(docs'[..i], docs[i].merchant, docs[i].docType)
              == MaxVersion(docs[..i], docs[i].merchant, docs[i].docType)
    {
      SameNumbersCount(docs[..i + 1], docs'[..i + 1], docs[i].merchant, docs[i].docType);
      SameNumbersCount(docs[..i], docs'[..i], docs[i].merchant, docs[i].docType);
    }
    if forall i :: 0 <= i < |docs| ==> NoLeap(docs, i) {
      forall i | 0 <= i < |docs'| ensures NoLeap(docs', i) { assert NoLeap(docs, i) && SameNumber(docs[i], docs'[i]); }
    }
  }

  /** A landed registration, whatever it had seen. */
  lemma LandedVersion(docs: seq<Document>, seen: seq<Document>, m: Id, ty: DocType, row: Document)
    requires Grows(seen, docs) && (forall i :: 0 <= i < |docs| ==> NoLeap(docs, i))
    requires SameSlot(row, m, ty) && row.version == MaxVersion(seen, m, ty) + 1
    ensures var docs' := Amend(docs, d => Retired(d, m, ty)) + [row];
            && Grows(docs, docs')
            && (forall i :: 0 <= i < |docs'| ==> NoLeap(docs', i))
  {
    var kept := Amend(docs, d => Retired(d, m, ty));
    var docs' := kept + [row];
    SeenIsAPrefix(seen, docs, m, ty);
    assert docs'[..|docs|] == kept;
    SameNumbersCount(docs, kept, m, ty);
    forall i | 0 <= i < |docs| ensures NoLeap(docs', i) {
      assert NoLeap(docs, i) && docs'[..i] == kept[..i];
      SameNumbersCount(docs[..i], kept[..i], docs[i].merchant, docs[i].docType);
    }
  }

  /** The first n documents carry their places in the slot. */
  predicate EarlierOk(docs: seq<Document>, n: nat, merchant: Id, docType: DocType)
    requires n <= |docs|
  {
    forall i :: 0 <= i < n && SameSlot(docs[i], merchant, docType) ==> docs[i].version == Place(docs, i)
  }

  /** The earlier documents of a grown table are in order exactly as before. */
  lemma EarlierInOrder(docs: seq<Document>, docs': seq<Document>, merchant: Id, docType: DocType)
    requires |docs| <= |docs'| && Grows(docs, docs')
    requires forall i :: 0 <= i < |docs| ==> Place(docs', i) == Place(docs, i)
    ensures InOrder(docs, merchant, docType) <==>
              EarlierOk(docs', |docs|, merchant, docType)
  {
    hide Place;
    forall i | 0 <= i < |docs|
      ensures SameSlot(docs[i], merchant, docType) == SameSlot(docs'[i], merchant, docType)
      ensures docs[i].version == docs'[i].version
    {
      assert SameNumber(docs[i], docs'[i]);
    }
  }

  lemma LandedNumber(docs: seq<Document>, seen: seq<Document>, m: Id, ty: DocType)
    requires Grows(seen, docs) && InOrder(docs, m, ty)
    ensures MaxVersion(seen, m, ty) == Count(seen, m, ty)
  {
    SeenIsAPrefix(seen, docs, m, ty);
    PrefixInOrder(docs, |seen|, m, ty);
    InOrderMax(docs[..|seen|], m, ty);
  }

  lemma InOrderByLast(docs: seq<Document>, n: nat, merchant: Id, docType: DocType)
    requires |docs| == n + 1
    ensures InOrder(docs, merchant, docType) <==>
              EarlierOk(docs, n, merchant, docType)
              && (SameSlot(docs[n], merchant, docType) ==> docs[n].version == Place(docs, n))
  {
    hide Place;
  }

  /** A landed registration keeps its slot in order exactly when nothing landed since its read. */
  lemma LandedOrder(docs: seq<Document>, seen: seq<Document>, m: Id, ty: DocType, row: Document, merchant: Id,
                    docType: DocType)
    requires Grows(seen, docs) && SameSlot(row, m, ty) && row.version == MaxVersion(seen, m, ty) + 1
    ensures InOrder(Amend(docs, d => Retired(d, m, ty)) + [row], merchant, docType) <==>
              && InOrder(docs, merchant, docType)
              && (m == merchant && ty == docType ==> Count(seen, m, ty) == Count(docs, m, ty))
  {
    var docs' := Amend(docs, d => Retired(d, m, ty)) + [row];
    RegisterCounts(docs, m, ty, row);
    assert |docs'| == |docs| + 1 && docs'[|docs|] == row;
    assert forall i :: 0 <= i < |docs| ==> SameNumber(docs[i], docs'[i]);
    assert Grows(docs, docs');
    hide Place, Amend, Count, MaxVersion, InOrder, EarlierOk, Grows, SameNumber;
    EarlierInOrder(docs, docs', merchant, docType);
    InOrderByLast(docs', |docs|, merchant, docType);
    if InOrder(docs, merchant, docType) && m == merchant && ty == docType { LandedNumber(docs, seen, m, ty); }
  }

  lemma UploadStep(s: State, a: Action, merchant: Id, docType: DocType)
    requires NumbersOk(s) && a.Advance? && a.run in s.runs
    requires s.runs[a.run].Uploading? && s.runs[a.run].upc.Insert?
    ensures Grows(s.tables.documents, Next(s, a).tables.documents)
    ensures forall i :: 0 <= i < |Next(s, a).tables.documents| ==> NoLeap(Next(s, a).tables.documents, i)
    ensures InOrder(Next(s, a).tables.documents, merchant, docType) <==>
              InOrder(s.tables.documents, merchant, docType) && !Overtaken(s, a, merchant, docType)
  {
    var run, t := s.runs[a.run], s.tables;
    var seen := run.upc.seen;
    var version := MaxVersion(seen, run.merchant, run.docType) + 1;
    var row := Document(run.document, run.merchant, run.docType, version, true, DocPending, None);
    assert Next(s, a).tables == OrSame(t, InsertDocument(t, run.document, run.merchant, run.docType, version));
    if InsertDocument(t, run.document, run.merchant, run.docType, version).Some? {
      LandedVersion(t.documents, seen, run.merchant, run.docType, row);
      LandedOrder(t.documents, seen, run.merchant, run.docType, row, merchant, docType);
    }
  }

  lemma OtherStep(s: State, a: Action)
    requires !(a.Advance? && a.run in s.runs && s.runs[a.run].Uploading? && s.runs[a.run].upc.Insert?)
    ensures var docs, docs' := s.tables.documents, Next(s, a).tables.documents; |docs'| == |docs| && Grows(docs, docs')
  {
  }

  lemma GrowsIsTransitive(x: seq<Document>, y: seq<Document>, z: seq<Document>)
    requires Grows(x, y) && Grows(y, z)
    ensures Grows(x, z)
  {
    forall i | 0 <= i < |x| ensures SameNumber(x[i], z[i]) { assert SameNumber(x[i], y[i]) && SameNumber(y[i], z[i]); }
  }

  lemma NumberStep(s: State, a: Action, merchant: Id, docType: DocType)
    requires NumbersOk(s)
    ensures NumbersOk(Next(s, a)) && Grows(s.tables.documents, Next(s, a).tables.documents)
    ensures InOrder(Next(s, a).tables.documents, merchant, docType) <==>
              InOrder(s.tables.documents, merchant, docType) && !Overtaken(s, a, merchant, docType)
  {
    var s' := Next(s, a);
    if a.Advance? && a.run in s.runs && s.runs[a.run].Uploading? && s.runs[a.run].upc.Insert? {
      UploadStep(s, a, merchant, docType);
    } else {
      OtherStep(s, a);
      SameNumbersKeep(s.tables.documents, s'.tables.documents);
    }
    hide NoLeap, InOrder, Grows, Overtaken;
    forall r <- s'.runs | s'.runs[r].Uploading? && s'.runs[r].upc.Insert?
      ensures Grows(s'.runs[r].upc.seen, s'.tables.documents)
    {
      SeenComesFromARead(s, a, r);
      if r in s.runs && s'.runs[r] == s.runs[r] {
        GrowsIsTransitive(s.runs[r].upc.seen, s.tables.documents, s'.tables.documents);
      }
    }
  }

  lemma SeenComesFromARead(s: State, a: Action, r: Id)
    requires var s' := Next(s, a); r in s'.runs && s'.runs[r].Uploading? && s'.runs[r].upc.Insert?
    ensures (r in s.runs && Next(s, a).runs[r] == s.runs[r]) || Next(s, a).runs[r].upc.seen == s.tables.documents
  {
  }

  lemma {:induction false} NumbersOverARun(s: State, history: seq<Action>, merchant: Id, docType: DocType)
    requires NumbersOk(s)
    ensures NumbersOk(Exec(s, history))
    ensures InOrder(Exec(s, history).tables.documents, merchant, docType) <==>
              InOrder(s.tables.documents, merchant, docType) && !MeetsOvertaking(s, history, merchant, docType)
    decreases |history|
  {
    hide NumbersOk, InOrder, Overtaken;
    if history != [] {
      NumberStep(s, history[0], merchant, docType);
      NumbersOverARun(Next(s, history[0]), history[1..], merchant, docType);
    }
  }

  lemma ReachedNumbers(history: seq<Action>, merchant: Id, docType: DocType)
    ensures NumbersOk(Exec(INITIAL, history))
    ensures InOrder(Exec(INITIAL, history).tables.documents, merchant, docType) <==>
              !MeetsOvertaking(INITIAL, history, merchant, docType)
  {
    NumbersOverARun(INITIAL, history, merchant, docType);
  }

  // --- which versions there are ----------------------------------------------------------------

  lemma {:induction false} EveryVersionIsTaken(docs: seq<Document>, merchant: Id, docType: DocType, v: nat)
    returns (i: nat)
    requires forall k :: 0 <= k < |docs| ==> NoLeap(docs, k)
    requires 1 <= v <= MaxVersion(docs, merchant, docType)
    ensures i < |docs| && SameSlot(docs[i], merchant, docType) && docs[i].version == v
  {
    var front, last := docs[..|docs| - 1], docs[|docs| - 1];
    if SameSlot(last, merchant, docType) && last.version == v {
      i := |docs| - 1;
    } else {
      assert NoLeap(docs, |docs| - 1);
      forall k | 0 <= k < |front| ensures NoLeap(front, k) { assert NoLeap(docs, k) && front[..k] == docs[..k]; }
      i := EveryVersionIsTaken(front, merchant, docType, v);
    }
  }
}
