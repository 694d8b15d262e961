/** The life of an attestation: it verifies until it expires or is revoked, and its root pins its evidence. */
module AttestationLaws {
  import opened Attestation
  import opened CanonicalJson
  import opened CanonicalOrder
  import opened Digests
  import opened Ledger
  import opened Merkle
  import opened RunIdentity
  import opened Sorting
  import opened Wrappers

  // --- what the evidence root pins -------------------------------------------------------------

  lemma EntryOrder()
    ensures WeakOrder(EntryLess)
    ensures forall a, b :: EntryLess(a, b) || EntryLess(b, a) || (a.refType == b.refType && a.refId == b.refId)
  {
    forall a: Evidence, b: Evidence
      ensures EntryLess(a, b) || EntryLess(b, a) || (a.refType == b.refType && a.refId == b.refId)
      ensures EntryLess(a, b) ==> !EntryLess(b, a)
    {
      KeyLessTotal(a.refType, b.refType);
      KeyLessTotal(a.refId, b.refId);
    }
    forall a: Evidence, b: Evidence, c: Evidence | EntryLess(a, c)
      ensures EntryLess(a, b) || EntryLess(b, c)
    {
      KeyLessTotal(a.refType, b.refType);
      KeyLessTotal(b.refType, c.refType);
      KeyLessTotal(a.refId, b.refId);
      KeyLessTotal(b.refId, c.refId);
      if KeyLess(b.refType, a.refType) && KeyLess(a.refType, c.refType) {
        KeyLessTransitive(b.refType, a.refType, c.refType);
      }
      if KeyLess(b.refId, a.refId) && KeyLess(a.refId, c.refId) {
        KeyLessTransitive(b.refId, a.refId, c.refId);
      }
    }
  }

  ghost predicate DistinctRefs(entries: seq<Evidence>) {
    forall i, j :: 0 <= i < j < |entries| ==>
      entries[i].refType != entries[j].refType || entries[i].refId != entries[j].refId
  }

  /** With distinct references the root does not depend on the order in which evidence was fetched. */
  lemma RootIgnoresOrder(h: Hash, x: seq<Evidence>, y: seq<Evidence>)
    requires DistinctRefs(x) && DistinctRefs(y) && forall e :: e in x <==> e in y
    ensures SortEntries(x) == SortEntries(y) && EvidenceRoot(h, SortEntries(x)) == EvidenceRoot(h, SortEntries(y))
  {
    EntryOrder();
    SortIgnoresOrder(x, y, EntryLess);
  }

  /** Entries about one record are one and the same entry. */
  ghost predicate OneEntryPerRef(entries: seq<Evidence>) {
    forall a, b :: a in entries && b in entries && a.refType == b.refType && a.refId == b.refId ==> a == b
  }

  lemma TieIff(a: Evidence, b: Evidence)
    ensures Tie(a, b, EntryLess) <==> a.refType == b.refType && a.refId == b.refId
  {
    KeyLessTotal(a.refType, b.refType);
    KeyLessTotal(a.refId, b.refId);
  }

  /**
   The order in which evidence is fetched never matters exactly when no two different entries are about one record.
   */
  lemma OrderIgnoredIff(x: seq<Evidence>)
    ensures OrderIgnored(x, EntryLess) <==> OneEntryPerRef(x)
  {
    EntryOrder();
    SortIgnoresOrderIff(x, EntryLess);
    forall a, b
      ensures Tie(a, b, EntryLess) <==> a.refType == b.refType && a.refId == b.refId
    {
      TieIff(a, b);
    }
  }

  /**
   Two entries are sorted the same both ways round exactly when their references differ or they are the same entry.
   */
  lemma PairSortedIff(a: Evidence, b: Evidence)
    ensures SortEntries([a, b]) == SortEntries([b, a]) <==> a == b || a.refType != b.refType || a.refId != b.refId
  {
    EntryOrder();
    PairSorted(a, b);
    PairSorted(b, a);
  }

  lemma PairSorted(a: Evidence, b: Evidence)
    ensures SortEntries([a, b]) == if EntryLess(b, a) then [b, a] else [a, b]
  {
    assert Sort([a], EntryLess) == [a];
    assert [a, b][..1] == [a];
    assert Sort([a, b], EntryLess) == Place(b, [a], EntryLess);
    assert Place(b, [], EntryLess) == [b] && [a][..0] == [];
  }

  lemma EvidenceWellFormed(e: Evidence)
    requires WellFormed(e.value)
    ensures WellFormed(EvidenceJson(e))
  {
    var fields := EvidenceJson(e).fields;
    assert fields[0].key[7] == 'r' && fields[1].key[7] == 'r' && fields[2].key[7] == 'c';
    assert fields[0].key[11] == 't' && fields[1].key[11] == 'i' && fields[3].key[0] == 'v';
    assert DistinctKeys(fields);
  }

  /** Two entries that pin the same record, hash and value. */
  ghost predicate SameEvidence(a: Evidence, b: Evidence) {
    a.refType == b.refType && a.refId == b.refId && a.hash == b.hash && Same(a.value, b.value)
  }

  lemma SameJsonSameEvidence(a: Evidence, b: Evidence)
    requires WellFormed(EvidenceJson(b)) && Same(EvidenceJson(a), EvidenceJson(b))
    ensures SameEvidence(a, b)
  {
    var x, y := EvidenceJson(a).fields, EvidenceJson(b).fields;
    SameAt(x, y, 0);
    SameAt(x, y, 1);
    SameAt(x, y, 2);
    SameAt(x, y, 3);
    SameScalars(x[0].value, y[0].value);
    SameScalars(x[1].value, y[1].value);
    SameScalars(x[2].value, y[2].value);
  }

  lemma TextPinsEvidence(a: Evidence, b: Evidence)
    requires WellFormed(a.value) && WellFormed(b.value)
    requires Canonical(EvidenceJson(a)) == Canonical(EvidenceJson(b))
    ensures SameEvidence(a, b)
  {
    EvidenceWellFormed(a);
    EvidenceWellFormed(b);
    CanonicalUnambiguous(EvidenceJson(a), EvidenceJson(b));
    SameJsonSameEvidence(a, b);
  }

  /** Entry lists of equal length with equal roots pin the same evidence, position by position. */
  lemma RootPinsEvidence(h: Hash, x: seq<Evidence>, y: seq<Evidence>)
    requires |x| == |y| && EvidenceRoot(h, x) == EvidenceRoot(h, y)
    requires forall i :: 0 <= i < |x| ==> WellFormed(x[i].value) && WellFormed(y[i].value)
    requires NoCollision(h, AllTexts(h, EntryTexts(x)) + AllTexts(h, EntryTexts(y)))
    ensures forall i :: 0 <= i < |x| ==> SameEvidence(x[i], y[i])
  {
    SameLengthBinds(h, EntryTexts(x), EntryTexts(y));
    forall i | 0 <= i < |x|
      ensures SameEvidence(x[i], y[i])
    {
      assert EntryTexts(x)[i] == EntryTexts(y)[i];
      TextPinsEvidence(x[i], y[i]);
    }
  }

  lemma SameEvidenceSameText(a: Evidence, b: Evidence)
    requires WellFormed(a.value) && WellFormed(b.value) && SameEvidence(a, b)
    ensures Canonical(EvidenceJson(a)) == Canonical(EvidenceJson(b))
  {
    var x, y := EvidenceJson(a).fields, EvidenceJson(b).fields;
    forall i | 0 <= i < 4
      ensures Ahead(x[i], y) && Back(x, y[i])
    {
      assert x[i].key == y[i].key && Same(x[i].value, y[i].value);
    }
    EvidenceWellFormed(a);
    EvidenceWellFormed(b);
    CanonicalUnambiguous(EvidenceJson(a), EvidenceJson(b));
  }

  /** Entry lists of equal length have equal roots exactly when they pin the same evidence. */
  lemma EvidenceRootIff(h: Hash, x: seq<Evidence>, y: seq<Evidence>)
    requires |x| == |y|
    requires forall i :: 0 <= i < |x| ==> WellFormed(x[i].value) && WellFormed(y[i].value)
    requires NoCollision(h, AllTexts(h, EntryTexts(x)) + AllTexts(h, EntryTexts(y)))
    ensures EvidenceRoot(h, x) == EvidenceRoot(h, y) <==> forall i :: 0 <= i < |x| ==> SameEvidence(x[i], y[i])
  {
    if EvidenceRoot(h, x) == EvidenceRoot(h, y) {
      RootPinsEvidence(h, x, y);
    }
    if forall i :: 0 <= i < |x| ==> SameEvidence(x[i], y[i]) {
      forall i | 0 <= i < |x|
        ensures EntryTexts(x)[i] == EntryTexts(y)[i]
      {
        SameEvidenceSameText(x[i], y[i]);
      }
      assert EntryTexts(x) == EntryTexts(y);
    }
  }

  /** Evidence of two controls about one run: the root tells the two orders apart unless it pins the same. */
  lemma PairRootIff(h: Hash, a: Evidence, b: Evidence)
    requires a.refType == b.refType && a.refId == b.refId && WellFormed(a.value) && WellFormed(b.value)
    requires NoCollision(h, AllTexts(h, EntryTexts([a, b])) + AllTexts(h, EntryTexts([b, a])))
    ensures EvidenceRoot(h, SortEntries([a, b])) == EvidenceRoot(h, SortEntries([b, a])) <==> SameEvidence(a, b)
  {
    EntryOrder();
    PairSorted(a, b);
    PairSorted(b, a);
    TieIff(a, b);
    EvidenceRootIff(h, [a, b], [b, a]);
    SameEvidenceBack(a, b);
  }

  lemma SameEvidenceBack(a: Evidence, b: Evidence)
    requires WellFormed(a.value) && WellFormed(b.value)
    ensures SameEvidence(a, b) <==> SameEvidence(b, a)
  {
    CanonicalUnambiguous(a.value, b.value);
    CanonicalUnambiguous(b.value, a.value);
  }

  // --- growth of the records --------------------------------------------------------------------------

  lemma {:induction false} RunHashStays(runs: seq<Run>, more: seq<Run>, id: string)
    requires runs <= more && RunHashOfId(runs, id).Some?
    ensures RunHashOfId(more, id) == RunHashOfId(runs, id)
  {
    if runs[0].id != id {
      RunHashStays(runs[1..], more[1..], id);
    }
  }

  lemma {:induction false} CountsHashStays(results: seq<ResultRow>, more: seq<ResultRow>, id: string)
    requires results <= more && CountsHashOfId(results, id).Some?
    ensures CountsHashOfId(more, id) == CountsHashOfId(results, id)
  {
    if results[0].id != id {
      CountsHashStays(results[1..], more[1..], id);
    }
  }

  lemma {:induction false} CalibrationHashStays(stored: seq<Stored>, more: seq<Stored>, id: string)
    requires stored <= more && CalibrationHashOfId(stored, id).Some?
    ensures CalibrationHashOfId(more, id) == CalibrationHashOfId(stored, id)
  {
    if !(stored[0].table == "calibration_snapshots" && stored[0].id == id) {
      CalibrationHashStays(stored[1..], more[1..], id);
    }
  }

  predicate LookedUp(refType: string) {
    refType == "run" || refType == "result" || refType == "calibration_snapshot"
  }

  /** The record is there with the pinned hash, or is of a kind that is never looked up. */
  predicate Pinned(db: Db, e: Evidence) {
    && e.refType != "card"
    && (LookedUp(e.refType) ==> e.hash.Some? && LiveHash(db, map[], e.refType, e.refId) == e.hash)
  }

  lemma PinnedStays(db: Db, next: Db, e: Evidence)
    requires Grows(db, next) && Pinned(db, e)
    ensures Pinned(next, e)
  {
    if e.refType == "run" {
      RunHashStays(db.runs, next.runs, e.refId);
    } else if e.refType == "result" {
      CountsHashStays(db.results, next.results, e.refId);
    } else if e.refType == "calibration_snapshot" {
      CalibrationHashStays(db.stored, next.stored, e.refId);
    }
  }

  /** Ids are unique across tables: entries about the same id are about the same record. */
  ghost predicate IdsApart(entries: seq<Evidence>) {
    forall i, j :: 0 <= i < |entries| && 0 <= j < |entries| && entries[i].refId == entries[j].refId ==>
      entries[i].refType == entries[j].refType
  }

  ghost predicate AllPinned(db: Db, entries: seq<Evidence>) {
    forall i :: 0 <= i < |entries| ==> Pinned(db, entries[i])
  }

  /** The live hash listed for the id is that of the entry's record. */
  ghost predicate GivesLive(db: Db, cards: map<string, string>, entries: seq<Evidence>, e: Evidence, id: string) {
    && e.refId == id && id in LiveHashes(db, cards, entries)
    && LiveHash(db, cards, e.refType, id) == Some(LiveHashes(db, cards, entries)[id])
  }

  lemma {:induction false} LiveComesFromEntry(db: Db, cards: map<string, string>, entries: seq<Evidence>, id: string)
    requires id in LiveHashes(db, cards, entries)
    ensures exists i :: 0 <= i < |entries| && GivesLive(db, cards, entries, entries[i], id)
  {
    var n := |entries| - 1;
    if entries[n].refId == id && LiveHash(db, cards, entries[n].refType, id).Some? {
      assert GivesLive(db, cards, entries, entries[n], id);
    } else {
      LiveComesFromEntry(db, cards, entries[..n], id);
      var i :| 0 <= i < n && GivesLive(db, cards, entries[..n], entries[..n][i], id);
      assert GivesLive(db, cards, entries, entries[i], id);
    }
  }

  /** Pinned evidence shows no change, whatever happened to the cards. */
  lemma {:induction false} PinnedUnchanged(db: Db, cards: map<string, string>, entries: seq<Evidence>, i: nat)
    requires AllPinned(db, entries) && IdsApart(entries) && i < |entries|
    ensures !Changed(entries[i], LiveHashes(db, cards, entries))
  {
    var id := entries[i].refId;
    if id in LiveHashes(db, cards, entries) {
      LiveComesFromEntry(db, cards, entries, id);
      var j :| 0 <= j < |entries| && GivesLive(db, cards, entries, entries[j], id);
      assert Pinned(db, entries[i]) && entries[i].refType == entries[j].refType;
    }
  }

  // --- the life of an attestation -----------------------------------------------------------------------

  /** Evidence as the rule engine leaves it: pinned to records that exist. */
  ghost predicate Honest(db: Db, o: Issuance) {
    AllPinned(db, SortEntries(o.items)) && IdsApart(SortEntries(o.items))
  }

  function AfterAll(h: Hash, k: Hashing, s: Scheme, st: State, changes: seq<Change>): State {
    if changes == [] then st
    else After(h, k, s, AfterAll(h, k, s, st, changes[..|changes| - 1]), changes[|changes| - 1])
  }

  predicate ChangeEnabled(st: State, e: Change) {
    e.LedgerChange? ==> Enabled(st.db, e.step)
  }

  predicate ChangesEnabled(h: Hash, k: Hashing, s: Scheme, st: State, changes: seq<Change>) {
    changes == [] ||
    (ChangesEnabled(h, k, s, st, changes[..|changes| - 1]) &&
     ChangeEnabled(AfterAll(h, k, s, st, changes[..|changes| - 1]), changes[|changes| - 1]))
  }

  predicate RevokedIn(changes: seq<Change>, id: string) {
    exists i :: 0 <= i < |changes| && changes[i] == Revoke(id)
  }

  lemma RevokedSnoc(changes: seq<Change>, id: string)
    requires changes != []
    ensures RevokedIn(changes, id) <==> RevokedIn(changes[..|changes| - 1], id) || changes[|changes| - 1] == Revoke(id)
  {
    var n := |changes| - 1;
    assert forall i :: 0 <= i < n ==> changes[..n][i] == changes[i];
    if i :| 0 <= i < |changes| && changes[i] == Revoke(id) {
      assert i < n ==> changes[..n][i] == Revoke(id);
    }
  }

  lemma ChangeKeepsRecords(h: Hash, k: Hashing, s: Scheme, st: State, e: Change, entries: seq<Evidence>)
    requires Sound(k) && Inv(k, st.db) && ChangeEnabled(st, e) && AllPinned(st.db, entries)
    ensures Inv(k, After(h, k, s, st, e).db) && AllPinned(After(h, k, s, st, e).db, entries)
  {
    if e.LedgerChange? {
      StepKeepsInv(k, st.db, e.step);
      StepGrows(k, st.db, e.step);
      forall i | 0 <= i < |entries|
        ensures Pinned(Apply(k, st.db, e.step), entries[i])
      {
        PinnedStays(st.db, Apply(k, st.db, e.step), entries[i]);
      }
    }
  }

  /** What later changes leave of an issued attestation: its evidence stays pinned, and only its revoked flag moves. */
  lemma {:induction false} RowStays(h: Hash, k: Hashing, s: Scheme, st: State, changes: seq<Change>, id: string)
    requires Sound(k) && Inv(k, st.db) && ChangesEnabled(h, k, s, st, changes)
    requires id in st.rows && AllPinned(st.db, st.rows[id].entries)
    ensures var last := AfterAll(h, k, s, st, changes);
            && Inv(k, last.db) && AllPinned(last.db, st.rows[id].entries)
            && id in last.rows
            && last.rows[id] == st.rows[id].(revoked := st.rows[id].revoked || RevokedIn(changes, id))
    decreases |changes|
  {
    if changes != [] {
      var n := |changes| - 1;
      RowStays(h, k, s, st, changes[..n], id);
      RevokedSnoc(changes, id);
      ChangeKeepsRecords(h, k, s, AfterAll(h, k, s, st, changes[..n]), changes[n], st.rows[id].entries);
    }
  }

  /**
    * An attestation issued on honest evidence verifies after any later changes exactly until it expires or
    * is revoked, whatever else is recorded, ingested, issued or revoked in between.
    */
  lemma {:induction false} VerifiesUntilExpiredOrRevoked(
      h: Hash, k: Hashing, s: Scheme, st: State, o: Issuance, changes: seq<Change>, jwks: seq<Jwk>, now: int)
    requires Correct(s) && Sound(k) && Inv(k, st.db) && o.id !in st.rows && Honest(st.db, o)
    requires ChangesEnabled(h, k, s, After(h, k, s, st, Issue(o)), changes)
    requires KeyFor(jwks, o.kid) == Some(s.public(o.key))
    ensures var last := AfterAll(h, k, s, After(h, k, s, st, Issue(o)), changes);
            && o.id in last.rows
            && (Verifies(h, s, last.rows[o.id], jwks,
                         LiveHashes(last.db, last.cards, last.rows[o.id].entries), now) <==>
                now <= o.now + o.ttl && !RevokedIn(changes, o.id))
  {
    var issued := After(h, k, s, st, Issue(o));
    var last := AfterAll(h, k, s, issued, changes);
    RowStays(h, k, s, issued, changes, o.id);
    var a := last.rows[o.id];
    var live := LiveHashes(last.db, last.cards, a.entries);
    forall i | 0 <= i < |a.entries|
      ensures !Changed(a.entries[i], live)
    {
      PinnedUnchanged(last.db, last.cards, a.entries, i);
    }
    assert a.signature == s.sign(o.key, s.text(a.statement));
    assert Untampered(h, a, live);
  }

  /** Once revoked, an attestation never verifies again. */
  lemma {:induction false} NeverAfterRevocation(
      h: Hash, k: Hashing, s: Scheme, st: State, changes: seq<Change>, id: string,
      jwks: seq<Jwk>, live: map<string, string>, now: int)
    requires Sound(k) && Inv(k, st.db) && ChangesEnabled(h, k, s, st, changes)
    requires id in st.rows && AllPinned(st.db, st.rows[id].entries) && RevokedIn(changes, id)
    ensures var last := AfterAll(h, k, s, st, changes);
            id in last.rows && !Verifies(h, s, last.rows[id], jwks, live, now)
  {
    RowStays(h, k, s, st, changes, id);
  }
}
