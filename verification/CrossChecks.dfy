/** Which evidence the public verification endpoint compares with the live records, and what follows for the rest. */
module CrossChecks {
  import opened Attestation
  import opened AttestationLaws
  import opened CanonicalJson
  import opened Digests
  import opened Ledger
  import opened Sorting
  import opened Wrappers
  import Compliance
  import Record

  /** The evidence types live_hashes_for has a branch for. */
  predicate CrossChecked(refType: string) {
    refType == "run" || refType == "result" || refType == "calibration_snapshot" || refType == "card"
  }

  // --- what a change of the records can show -------------------------------------------------------

  /** Records that hold one record of the type, with the given hash. */
  function Holding(refType: string, id: string, hash: Digest): (records: (Db, map<string, string>))
    ensures CrossChecked(refType) ==> LiveHash(records.0, records.1, refType, id) == Some(hash)
  {
    var run := Run(id, "", 0, Completed, Some(Seal(hash, AnyDigest(), [], None, AnyDigest())), []);
    (Db([run], map[], [Stored("calibration_snapshots", id, "", hash)], [ResultRow(id, "", hash)], []), map[id := hash])
  }

  /** A digest other than the given hash. */
  function OtherDigest(hash: Option<string>): (d: Digest)
    ensures Some(d) != hash
  {
    var d := AnyDigest();
    assert d[1] != d[1 := '1'][1];
    if Some(d) != hash then d else d[1 := '1']
  }

  lemma {:induction false} LiveListed(db: Db, cards: map<string, string>, entries: seq<Evidence>, i: nat)
    requires i < |entries| && LiveHash(db, cards, entries[i].refType, entries[i].refId).Some?
    ensures entries[i].refId in LiveHashes(db, cards, entries)
    decreases |entries|
  {
    var n := |entries| - 1;
    if i < n {
      LiveListed(db, cards, entries[..n], i);
    }
  }

  /** A change of the records can make an entry fail exactly when its type is cross-checked. */
  lemma {:induction false} NoticeableIff(entries: seq<Evidence>, i: nat)
    requires i < |entries| && IdsApart(entries)
    ensures (exists db: Db, cards: map<string, string> :: Changed(entries[i], LiveHashes(db, cards, entries))) <==>
            CrossChecked(entries[i].refType)
  {
    var e := entries[i];
    if db: Db, cards: map<string, string> :| Changed(e, LiveHashes(db, cards, entries)) {
      LiveComesFromEntry(db, cards, entries, e.refId);
      var j :| 0 <= j < |entries| && GivesLive(db, cards, entries, entries[j], e.refId);
      assert entries[j].refType == e.refType;
    }
    if CrossChecked(e.refType) {
      var (db, cards) := Holding(e.refType, e.refId, OtherDigest(e.hash));
      LiveListed(db, cards, entries, i);
      LiveComesFromEntry(db, cards, entries, e.refId);
      var j :| 0 <= j < |entries| && GivesLive(db, cards, entries, entries[j], e.refId);
      assert Changed(e, LiveHashes(db, cards, entries));
    }
  }

  // --- the evidence the rule engine leaves -----------------------------------------------------------

  /** Of the sources a rule can have, evidence from runs, results and calibrations is cross-checked, and no other. */
  lemma SourceCrossCheckedIff(data: Record.Data, ws: Record.Row, source: string)
    requires Record.Candidates(data, ws, source).Some?
    ensures CrossChecked(Compliance.RefType(source)) <==>
            source == "run" || source == "result" || source == "calibration"
  {
    assert "result_card"[0] == 'r' && |"result_card"| == 11 && |"reproduction_event"| == 18;
    assert |"workspace"| == 9 && |"circuit"| == 7 && |"result"| == 6 && |"run"| == 3 && |"calibration_snapshot"| == 20;
  }

  // --- evidence that is not cross-checked ------------------------------------------------------------

  ghost predicate NoneCrossChecked(entries: seq<Evidence>) {
    forall e :: e in entries ==> !CrossChecked(e.refType)
  }

  lemma {:induction false} NothingLive(db: Db, cards: map<string, string>, entries: seq<Evidence>)
    requires NoneCrossChecked(entries)
    ensures LiveHashes(db, cards, entries) == map[]
    decreases |entries|
  {
    if entries != [] {
      var n := |entries| - 1;
      assert entries[n] in entries;
      assert forall e :: e in entries[..n] ==> e in entries;
      NothingLive(db, cards, entries[..n]);
    }
  }

  /**
    * An attestation over such evidence verifies until it expires or is revoked whatever the records hold:
    * they may be rewritten or deleted, and need never have existed.
    */
  lemma {:induction false} UncheckedAlwaysVerifies(h: Hash, s: Scheme, o: Issuance, revoked: bool, jwks: seq<Jwk>,
      db: Db, cards: map<string, string>, now: int)
    requires Correct(s) && KeyFor(jwks, o.kid) == Some(s.public(o.key)) && NoneCrossChecked(o.items)
    ensures var a := IssuedRow(h, s, o).(revoked := revoked);
            Verifies(h, s, a, jwks, LiveHashes(db, cards, a.entries), now) <==> now <= o.now + o.ttl && !revoked
  {
    var a := IssuedRow(h, s, o).(revoked := revoked);
    SortElements(o.items, EntryLess);
    NothingLive(db, cards, a.entries);
    assert a.signature == s.sign(o.key, s.text(a.statement));
  }

  /** The evidence a card rule leaves for a result card, with the value it collected. */
  function CardEvidence(id: string, hash: string, value: Json): Evidence {
    Evidence(Compliance.RefType("card"), id, Some(hash), value)
  }

  /** A card is attested, then changed: the attestation goes on verifying with the hash the card no longer has. */
  lemma {:induction false} ChangedCardStillVerifies(h: Hash, k: Hashing, s: Scheme, st: State, o: Issuance,
      jwks: seq<Jwk>,
      id: string, before: string, after: string, value: Json)
    requires Correct(s) && KeyFor(jwks, o.kid) == Some(s.public(o.key)) && o.id !in st.rows
    requires o.items == [CardEvidence(id, before, value)] && before != after && o.ttl >= 0
    ensures var last := AfterAll(h, k, s, st, [SetCards(map[id := before]), Issue(o), SetCards(map[id := after])]);
            && o.id in last.rows && last.rows[o.id].entries == [CardEvidence(id, before, value)] &&
               last.cards[id] != before
            && Verifies(h, s, last.rows[o.id], jwks, LiveHashes(last.db, last.cards, last.rows[o.id].entries), o.now)
  {
    var changes := [SetCards(map[id := before]), Issue(o), SetCards(map[id := after])];
    var last := AfterAll(h, k, s, st, changes);
    assert changes[..2] == [changes[0], changes[1]] && changes[..2][..1] == [changes[0]] &&
           changes[..2][..1][..0] == [];
    var attested := After(h, k, s, st, changes[0]);
    assert AfterAll(h, k, s, st, [changes[0]]) == attested;
    assert AfterAll(h, k, s, st, changes[..2]) == After(h, k, s, attested, changes[1]);
    assert last == After(h, k, s, After(h, k, s, attested, changes[1]), changes[2]);
    assert last.rows[o.id] == IssuedRow(h, s, o) && last.cards == map[id := after];
    assert "result_card"[6] == '_' && |"card"| == 4;
    UncheckedAlwaysVerifies(h, s, o, false, jwks, last.db, last.cards, o.now);
  }
}
