/** The four tables as maps, keyed by the columns their constraints make unique,
    and the values that cross the store boundary. */
module Tables {
  import opened Results
  import opened JsonValues
  import opened DeltaEncoding

  type Time = real

  /** The aggregate identity `(stream, aggregate_id)`. */
  datatype Key = Key(stream: string, id: nat)

  /** The unique `(stream, aggregate_id, revision)` of a log row.  `revision_id`
      is an injective function of this triple, so the triple stands for it. */
  datatype RowKey = RowKey(key: Key, rev: int)

  datatype Kind = Create | Change

  /** The encoding configured for a stream. */
  datatype Encoding = SnapshotEncoding | DeltaEncoded(every: nat)

  type Encodings = map<string, Encoding>

  predicate ValidEncodings(enc: Encodings) {
    forall s :: s in enc && enc[s].DeltaEncoded? ==> enc[s].every >= 1
  }

  function EncodingFor(enc: Encodings, stream: string): Encoding {
    if stream in enc then enc[stream] else SnapshotEncoding
  }

  /** A log row's payload with its `encoding` column: a full `snapshot/1`
      document or a `delta/1` patch. */
  datatype Physical = Full(doc: Doc) | Delta(patch: Patch)

  /** `eventic_revision`, without its key columns. */
  datatype Row = Row(
    kind: Kind, schema: int, metaVersion: int, payload: Physical,
    digest: Digest, meta: Doc, at: Time)

  /** `eventic_head`, without its key columns. */
  datatype Head = Head(
    rev: int, rid: RowKey, schema: int, metaVersion: int, state: Doc,
    digest: Digest, meta: Doc, at: Time)

  datatype Status = Pending | Leased | Dead

  /** `uq_intent_sub_rev`; the intent's own id is an injective function of it. */
  datatype IntentKey = IntentKey(sub: string, rid: RowKey)

  /** `eventic_intent`, without its key columns. */
  datatype Intent = Intent(
    queue: string, status: Status, attempts: nat, availableAt: Time,
    leasedUntil: Option<Time>, lastError: Option<string>, createdAt: Time)

  datatype Fingerprint = Fingerprint(value: string, firstSeen: Time)

  type Log = map<RowKey, Row>
  type Heads = map<Key, Head>
  type Intents = map<IntentKey, Intent>
  type Ledger = map<(string, int), Fingerprint>

  datatype Db = Db(log: Log, heads: Heads, intents: Intents, ledger: Ledger)

  datatype IntentRequest = IntentRequest(sub: string, rid: RowKey, queue: string)

  datatype CommitRequest = CommitRequest(
    key: Key, expected: Option<int>, kind: Kind, schema: int, payload: Bytes,
    digest: Digest, meta: Bytes, metaVersion: int, fingerprint: string,
    intents: seq<IntentRequest>)

  datatype CommitResult = CommitResult(key: Key, rev: int, at: Time, replayed: bool)

  /** A revision as the store hands it up: always the logical document. */
  datatype StoredRevision = StoredRevision(
    key: Key, rev: int, rid: RowKey, kind: Kind, schema: int, metaVersion: int,
    payload: Doc, digest: Digest, meta: Doc, at: Time)

  function HeadOf(heads: Heads, key: Key): Option<Head> {
    if key in heads then Some(heads[key]) else None
  }

  function RowOf(log: Log, rk: RowKey): Option<Row> {
    if rk in log then Some(log[rk]) else None
  }
}
