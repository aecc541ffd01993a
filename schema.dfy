/** The two shapes of blob the store writes to the ledger (data records and
    metadata checkpoints), the error kinds, and the structural codec that turns
    each shape into a JSON object and back.

    The derived serde codec is untagged: a blob is read as a checkpoint when it
    has the checkpoint's fields and as a record when it has the record's fields.
    JSON objects are modelled as maps from field name to value, which is enough
    to show that the two shapes can never be mistaken for each other. */
module Schema {
  import opened Basics

  /** A point in time. The chrono type and its RFC 3339 text form are
      abstracted to an opaque integer. */
  type Timestamp = int

  /** Every store operation fails with one of exactly these two kinds. A key
      that is not found is not an error. */
  datatype DbError =
    | AvailError(message: string)
    | SerializationError(message: string)

  /** A key/value entry. `id` is a UUID string supplied by the caller of
      `NewRecord`; the generator itself is not modelled. */
  datatype Record = Record(
    key: string,
    value: string,
    createdAt: Timestamp,
    updatedAt: Option<Timestamp>,
    id: string)

  /** The per-namespace checkpoint. */
  datatype DatabaseMetadata = DatabaseMetadata(
    recordCount: u64,
    lastUpdated: Timestamp,
    startHeight: u64)

  /** `Record::new`: the clock reading and the fresh UUID are parameters. */
  function NewRecord(key: string, value: string, now: Timestamp, id: string): (r: Record)
    ensures r.key == key && r.value == value
    ensures r.createdAt == now && r.id == id
    ensures r.updatedAt == None
  {
    Record(key, value, now, None, id)
  }

  /** `Default for DatabaseMetadata`. */
  function DefaultMetadata(now: Timestamp): (m: DatabaseMetadata)
    ensures m.recordCount == 0 && m.startHeight == 1
    ensures m.lastUpdated == now
  {
    DatabaseMetadata(0, now, 1)
  }

  // ---------------------------------------------------------------------
  // The codec

  /** A JSON value, as far as the two shapes need it. A serialized timestamp
      is its own kind of value here instead of an RFC 3339 string. */
  datatype Json =
    | JString(s: string)
    | JNumber(n: int)
    | JNull
    | JTimestamp(t: Timestamp)
    | JOther

  /** The text of one blob: a JSON object, or anything else (an array, a
      scalar, text that is not JSON at all). */
  datatype Blob =
    | Object(fields: map<string, Json>)
    | NotAnObject(text: string)

  const RECORD_FIELDS: set<string> := {"key", "value", "created_at", "updated_at", "id"}
  const METADATA_FIELDS: set<string> := {"record_count", "last_updated", "start_height"}

  function EncodeRecord(r: Record): (b: Blob)
    ensures b.Object? && b.fields.Keys == RECORD_FIELDS
    ensures DecodeRecord(b) == Some(r)
    ensures DecodeMetadata(b) == None
  {
    Object(map[
      "key" := JString(r.key),
      "value" := JString(r.value),
      "created_at" := JTimestamp(r.createdAt),
      "updated_at" := (match r.updatedAt
                       case Some(t) => JTimestamp(t)
                       case None => JNull),
      "id" := JString(r.id)])
  }

  function EncodeMetadata(m: DatabaseMetadata): (b: Blob)
    ensures b.Object? && b.fields.Keys == METADATA_FIELDS
    ensures DecodeMetadata(b) == Some(m)
    ensures DecodeRecord(b) == None
  {
    Object(map[
      "record_count" := JNumber(m.recordCount),
      "last_updated" := JTimestamp(m.lastUpdated),
      "start_height" := JNumber(m.startHeight)])
  }

  function StringField(fields: map<string, Json>, name: string): Option<string> {
    if name in fields && fields[name].JString? then Some(fields[name].s) else None
  }

  function TimestampField(fields: map<string, Json>, name: string): Option<Timestamp> {
    if name in fields && fields[name].JTimestamp? then Some(fields[name].t) else None
  }

  function U64Field(fields: map<string, Json>, name: string): Option<u64> {
    if name in fields && fields[name].JNumber? && 0 <= fields[name].n <= U64_MAX
    then Some(fields[name].n as u64)
    else None
  }

  /** An `Option<DateTime>` field: a missing field and `null` both read as
      `None`; anything but a timestamp or `null` is a decode failure. */
  function OptionalTimestampField(fields: map<string, Json>, name: string): Option<Option<Timestamp>> {
    if name !in fields || fields[name].JNull? then Some(None)
    else if fields[name].JTimestamp? then Some(Some(fields[name].t))
    else None
  }

  /** `serde_json::from_str::<Record>`. Fields it does not know are ignored. */
  function DecodeRecord(b: Blob): (r: Option<Record>)
    ensures r.Some? ==> b.Object? && RECORD_FIELDS - {"updated_at"} <= b.fields.Keys
  {
    match b
    case NotAnObject(_) => None
    case Object(f) =>
      var key := StringField(f, "key");
      var value := StringField(f, "value");
      var created := TimestampField(f, "created_at");
      var updated := OptionalTimestampField(f, "updated_at");
      var id := StringField(f, "id");
      if key.Some? && value.Some? && created.Some? && updated.Some? && id.Some?
      then Some(Record(key.value, value.value, created.value, updated.value, id.value))
      else None
  }

  /** `serde_json::from_str::<DatabaseMetadata>`. Fields it does not know are
      ignored. */
  function DecodeMetadata(b: Blob): (r: Option<DatabaseMetadata>)
    ensures r.Some? ==> b.Object? && METADATA_FIELDS <= b.fields.Keys
  {
    match b
    case NotAnObject(_) => None
    case Object(f) =>
      var count := U64Field(f, "record_count");
      var updated := TimestampField(f, "last_updated");
      var start := U64Field(f, "start_height");
      if count.Some? && updated.Some? && start.Some?
      then Some(DatabaseMetadata(count.value, updated.value, start.value))
      else None
  }
}
