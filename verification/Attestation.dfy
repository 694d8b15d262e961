/** Attestations: signed statements over a Merkle root of evidence, verified against the live records. */
module Attestation {
  import opened CanonicalJson
  import opened CanonicalOrder
  import opened Digests
  import opened Ledger
  import opened Merkle
  import opened RunIdentity
  import opened Sorting
  import opened Wrappers

  /** An evidence entry: the record it pins, the content hash it pins it with, and the value found there. */
  datatype Evidence = Evidence(refType: string, refId: string, hash: Option<string>, value: Json)

  function EvidenceJson(e: Evidence): Json {
    JObject([
      Field("source_ref_type", JString(e.refType)),
      Field("source_ref_id", JString(e.refId)),
      Field("source_content_hash", if e.hash.Some? then JString(e.hash.value) else JNull),
      Field("value", e.value)])
  }

  function EntryTexts(entries: seq<Evidence>): (texts: seq<string>)
    ensures |texts| == |entries|
  {
    seq(|entries|, i requires 0 <= i < |entries| => Canonical(EvidenceJson(entries[i])))
  }

  /** evidence_merkle_root */
  function EvidenceRoot(h: Hash, entries: seq<Evidence>): Digest {
    Root(h, Leaves(h, EntryTexts(entries)))
  }

  /** The order of _sort_entries: by type, then by id. */
  predicate EntryLess(a: Evidence, b: Evidence) {
    KeyLess(a.refType, b.refType) || (a.refType == b.refType && KeyLess(a.refId, b.refId))
  }

  function SortEntries(entries: seq<Evidence>): seq<Evidence> {
    Sort(entries, EntryLess)
  }

  // --- signing ---------------------------------------------------------------------------------

  datatype Statement = Statement(
    workspace: string,
    subjectType: string,
    subjectId: Option<string>,
    root: string,
    frameworks: seq<string>,
    issuedAt: int,
    expiresAt: Option<int>,
    issuer: Option<string>,
    nonce: string,
    revocationUrl: Option<string>)

  /** Canonical statement text and Ed25519, as unknown functions. */
  datatype Scheme = Scheme(
    text: Statement -> string,
    sign: (int, string) -> string,
    public: int -> int,
    check: (int, string, string) -> bool)

  /** A signature checks under the public key of the key that made it. */
  ghost predicate Correct(s: Scheme) {
    forall key, text {:trigger s.sign(key, text)} :: s.check(s.public(key), s.sign(key, text), text)
  }

  const ALG := "EdDSA"

  datatype Envelope = Envelope(statement: Statement, signature: string, kid: string, alg: string)

  datatype Jwk = Jwk(kid: string, key: int)

  function KeyFor(jwks: seq<Jwk>, kid: string): Option<int> {
    if jwks == [] then None
    else if jwks[0].kid == kid then Some(jwks[0].key)
    else KeyFor(jwks[1..], kid)
  }

  /** _find_jwk */
  method FindJwk(jwks: seq<Jwk>, kid: string) returns (key: Option<int>)
    ensures key == KeyFor(jwks, kid)
  {
    for i := 0 to |jwks|
      invariant KeyFor(jwks, kid) == KeyFor(jwks[i..], kid)
    {
      if jwks[i].kid == kid {
        return Some(jwks[i].key);
      }
    }
    return None;
  }

  datatype Reason = UnsupportedAlg | NoKey | BadSignature | HasExpired | IsRevoked | RootMismatch
    | HashChanged(refId: string)

  datatype Verdict = Verdict(valid: bool, signature: bool, expired: bool, revoked: bool, tampered: bool,
    reason: Option<Reason>)

  predicate SignatureHolds(s: Scheme, e: Envelope, jwks: seq<Jwk>) {
    && e.alg == ALG && KeyFor(jwks, e.kid).Some?
    && s.check(KeyFor(jwks, e.kid).value, e.signature, s.text(e.statement))
  }

  predicate ExpiredAt(t: Statement, now: int) {
    t.expiresAt.Some? && now > t.expiresAt.value
  }

  predicate RevokedBy(e: Envelope, revoked: set<string>) {
    e.kid in revoked || e.statement.nonce in revoked
  }

  /** verify_envelope: expiry and revocation are only looked at once the signature holds. */
  method VerifyEnvelope(s: Scheme, e: Envelope, jwks: seq<Jwk>, revoked: set<string>, now: int) returns (v: Verdict)
    ensures v.signature <==> SignatureHolds(s, e, jwks)
    ensures v.expired <==> v.signature && ExpiredAt(e.statement, now)
    ensures v.revoked <==> v.signature && RevokedBy(e, revoked)
    ensures v.valid <==> v.signature && !v.expired && !v.revoked
    ensures !v.tampered && (v.valid <==> v.reason == None)
  {
    v := Verdict(false, false, false, false, false, None);
    if e.alg != ALG {
      return v.(reason := Some(UnsupportedAlg));
    }
    var key := FindJwk(jwks, e.kid);
    if key.None? {
      return v.(reason := Some(NoKey));
    }
    if !s.check(key.value, e.signature, s.text(e.statement)) {
      return v.(reason := Some(BadSignature));
    }
    v := v.(signature := true);
    if e.statement.expiresAt.Some? {
      if now > e.statement.expiresAt.value {
        v := v.(expired := true, reason := Some(HasExpired));
      }
    }
    if e.kid in revoked || e.statement.nonce in revoked {
      v := v.(revoked := true, reason := if v.reason.Some? then v.reason else Some(IsRevoked));
    }
    v := v.(valid := v.signature && !v.expired && !v.revoked);
  }

  // --- the records evidence points at ----------------------------------------------------------------

  function RunHashOfId(runs: seq<Run>, id: string): Option<string> {
    if runs == [] then None
    else if runs[0].id == id then (if runs[0].seal.Some? then Some(runs[0].seal.value.runHash) else None)
    else RunHashOfId(runs[1..], id)
  }

  function CountsHashOfId(results: seq<ResultRow>, id: string): Option<string> {
    if results == [] then None
    else if results[0].id == id then Some(results[0].countsHash)
    else CountsHashOfId(results[1..], id)
  }

  function CalibrationHashOfId(stored: seq<Stored>, id: string): Option<string> {
    if stored == [] then None
    else if stored[0].table == "calibration_snapshots" && stored[0].id == id then Some(stored[0].content)
    else CalibrationHashOfId(stored[1..], id)
  }

  /** The content hash a record has now; other types of evidence are not looked up. */
  function LiveHash(db: Db, cards: map<string, string>, refType: string, refId: string): Option<string> {
    if refType == "run" then RunHashOfId(db.runs, refId)
    else if refType == "result" then CountsHashOfId(db.results, refId)
    else if refType == "calibration_snapshot" then CalibrationHashOfId(db.stored, refId)
    else if refType == "card" && refId in cards then Some(cards[refId])
    else None
  }

  function AddLive(live: map<string, string>, db: Db, cards: map<string, string>, e: Evidence): map<string, string> {
    var hash := LiveHash(db, cards, e.refType, e.refId);
    if hash.Some? then live[e.refId := hash.value] else live
  }

  function LiveHashes(db: Db, cards: map<string, string>, entries: seq<Evidence>): map<string, string> {
    if entries == [] then map[]
    else AddLive(LiveHashes(db, cards, entries[..|entries| - 1]), db, cards, entries[|entries| - 1])
  }

  /** live_hashes_for */
  method LiveHashesFor(db: Db, cards: map<string, string>, entries: seq<Evidence>) returns (live: map<string, string>)
    ensures live == LiveHashes(db, cards, entries)
  {
    live := map[];
    for i := 0 to |entries|
      invariant live == LiveHashes(db, cards, entries[..i])
    {
      assert entries[..i + 1][..i] == entries[..i];
      var hash := LiveHash(db, cards, entries[i].refType, entries[i].refId);
      if hash.Some? {
        live := live[entries[i].refId := hash.value];
      }
    }
    assert entries[..|entries|] == entries;
  }

  // --- stored attestations -----------------------------------------------------------------------------

  datatype Row = Row(id: string, statement: Statement, signature: string, kid: string, entries: seq<Evidence>,
    revoked: bool)

  function EnvelopeOf(a: Row): Envelope {
    Envelope(a.statement, a.signature, a.kid, ALG)
  }

  function RevocationSet(a: Row): set<string> {
    if a.revoked then {a.statement.nonce, a.id} else {}
  }

  predicate Changed(e: Evidence, live: map<string, string>) {
    e.refId in live && e.hash != Some(live[e.refId])
  }

  predicate Untampered(h: Hash, a: Row, live: map<string, string>) {
    && EvidenceRoot(h, a.entries) == a.statement.root
    && forall i :: 0 <= i < |a.entries| ==> !Changed(a.entries[i], live)
  }

  /** What an attestation needs to verify. */
  predicate Verifies(h: Hash, s: Scheme, a: Row, jwks: seq<Jwk>, live: map<string, string>, now: int) {
    && SignatureHolds(s, EnvelopeOf(a), jwks)
    && !ExpiredAt(a.statement, now)
    && !RevokedBy(EnvelopeOf(a), RevocationSet(a))
    && Untampered(h, a, live)
  }

  /** The record of the first entry whose live hash is another one. */
  method FirstChanged(entries: seq<Evidence>, live: map<string, string>) returns (refId: Option<string>)
    ensures refId.None? <==> forall i :: 0 <= i < |entries| ==> !Changed(entries[i], live)
    ensures refId.Some? ==>
              exists i :: 0 <= i < |entries| && Changed(entries[i], live) && entries[i].refId == refId.value
  {
    for i := 0 to |entries|
      invariant forall j :: 0 <= j < i ==> !Changed(entries[j], live)
    {
      if Changed(entries[i], live) {
        return Some(entries[i].refId);
      }
    }
    return None;
  }

  /** verify_attestation */
  method VerifyAttestation(h: Hash, s: Scheme, a: Row, jwks: seq<Jwk>, live: map<string, string>, now: int)
      returns (v: Verdict)
    ensures v.valid <==> Verifies(h, s, a, jwks, live, now)
    ensures v.tampered <==> !Untampered(h, a, live)
    ensures v.signature <==> SignatureHolds(s, EnvelopeOf(a), jwks)
    ensures v.valid <==> v.reason == None
  {
    var revoked: set<string> := {};
    if a.revoked {
      revoked := revoked + {a.statement.nonce, a.id};
    }
    assert revoked == RevocationSet(a);
    v := VerifyEnvelope(s, EnvelopeOf(a), jwks, revoked, now);
    var root := EvidenceRoot(h, a.entries);
    if root != a.statement.root {
      v := v.(tampered := true, reason := if v.reason.Some? then v.reason else Some(RootMismatch));
    }
    var changed := FirstChanged(a.entries, live);
    if changed.Some? {
      v := v.(tampered := true, reason := if v.reason.Some? then v.reason else Some(HashChanged(changed.value)));
    }
    if v.tampered {
      v := v.(valid := false);
    }
  }

  // --- the registry --------------------------------------------------------------------------------------

  /** What create_attestation is called with, and the id and nonce it generates. */
  datatype Issuance = Issuance(
    id: string,
    workspace: string,
    subjectType: string,
    subjectId: Option<string>,
    framework: Option<string>,
    items: seq<Evidence>,
    key: int,
    kid: string,
    ttl: int,
    issuer: Option<string>,
    revocationUrl: Option<string>,
    nonce: string,
    now: int)

  function StatementOf(h: Hash, o: Issuance): Statement {
    Statement(o.workspace, o.subjectType, o.subjectId, EvidenceRoot(h, SortEntries(o.items)),
              if o.framework.Some? then [o.framework.value] else [],
              o.now, Some(o.now + o.ttl), o.issuer, o.nonce, o.revocationUrl)
  }

  function IssuedRow(h: Hash, s: Scheme, o: Issuance): Row {
    Row(o.id, StatementOf(h, o), s.sign(o.key, s.text(StatementOf(h, o))), o.kid, SortEntries(o.items), false)
  }

  datatype State = State(db: Db, cards: map<string, string>, rows: map<string, Row>)

  /** Changes in the life of the server; cards may change in any way. */
  datatype Change = LedgerChange(step: Step) | SetCards(cards: map<string, string>) | Issue(issuance: Issuance)
    | Revoke(id: string)

  /** The primary key refuses a second row with the same id. */
  function Issued(h: Hash, s: Scheme, rows: map<string, Row>, o: Issuance): map<string, Row> {
    if o.id in rows then rows else rows[o.id := IssuedRow(h, s, o)]
  }

  function WithRevoked(rows: map<string, Row>, id: string): map<string, Row> {
    if id in rows then rows[id := rows[id].(revoked := true)] else rows
  }

  function After(h: Hash, k: Hashing, s: Scheme, st: State, e: Change): State {
    match e
    case LedgerChange(step) => st.(db := Apply(k, st.db, step))
    case SetCards(cards) => st.(cards := cards)
    case Issue(o) => st.(rows := Issued(h, s, st.rows, o))
    case Revoke(id) => st.(rows := WithRevoked(st.rows, id))
  }

  /** The attestations table, beside the ledger whose records it is checked against. */
  class Registry {
    const ledger: Store
    var cards: map<string, string>
    var rows: map<string, Row>

    constructor ()
      ensures fresh(ledger) && Contents() == State(EMPTY_DB, map[], map[])
    {
      ledger := new Store();
      cards, rows := map[], map[];
    }

    function Contents(): State
      reads this, ledger
    {
      State(ledger.Contents(), cards, rows)
    }

    /** create_attestation */
    method Create(h: Hash, s: Scheme, o: Issuance) returns (stored: bool)
      modifies this`rows
      ensures rows == Issued(h, s, old(rows), o)
      ensures stored == (o.id !in old(rows))
    {
      var entries := SortEntries(o.items);
      var statement := StatementOf(h, o);
      stored := o.id !in rows;
      if stored {
        rows := rows[o.id := Row(o.id, statement, s.sign(o.key, s.text(statement)), o.kid, entries, false)];
      }
    }

    /** revoke_attestation, behind the lookup by id. */
    method RevokeRow(id: string) returns (found: bool)
      modifies this`rows
      ensures rows == WithRevoked(old(rows), id)
      ensures found == (id in old(rows))
    {
      found := id in rows;
      if found {
        rows := rows[id := rows[id].(revoked := true)];
      }
    }

    /** The public verification endpoint; None for an unknown id. */
    method Verify(h: Hash, s: Scheme, jwks: seq<Jwk>, id: string, now: int) returns (v: Option<Verdict>)
      ensures v.Some? <==> id in rows
      ensures v.Some? ==> (v.value.valid <==>
                Verifies(h, s, rows[id], jwks, LiveHashes(ledger.Contents(), cards, rows[id].entries), now))
    {
      if id !in rows {
        return None;
      }
      var live := LiveHashesFor(ledger.Contents(), cards, rows[id].entries);
      var verdict := VerifyAttestation(h, s, rows[id], jwks, live, now);
      return Some(verdict);
    }
  }
}
