/** The store client: bootstrap (adopt a checkpoint found in a lookback window,
    or append a fresh one), the write path (a record, then a bumped
    checkpoint), the point read and the enumeration. The client holds only an
    in-memory snapshot of the checkpoint; the ledger is the only storage.

    The spec functions `Discovered`, `PointRead` and `Listing` say what the
    three scan-based operations return for a given ledger; the methods of
    `DatabaseClient` are proved to return exactly that. */
module Store {
  import opened Basics
  import opened Schema
  import opened Avail
  import opened Scan

  /** The discovery lookback used when none is configured; the command line
      uses the same default. */
  const DEFAULT_BLOCK_RANGE: u32 := 10

  /** Lower end of the discovery window: `latest.saturating_sub(range)`. */
  function DiscoveryStart(latest: u32, blockRange: Option<u32>): (lo: u32)
    ensures lo <= latest
    ensures latest - lo == Min(blockRange.GetOr(DEFAULT_BLOCK_RANGE), latest)
  {
    SaturatingSub(latest, blockRange.GetOr(DEFAULT_BLOCK_RANGE))
  }

  /** The height reads start from: the checkpoint's, or 0 without one. */
  function StartHeight(metadata: Option<DatabaseMetadata>): u64 {
    match metadata
    case Some(m) => m.startHeight
    case None => 0
  }

  /** The block range a read asks the fetch for: `latest - start_height`
      computed in 64 bits and cast back with `as u32`, or 0 when the start
      lies above the latest height. The cast never loses anything. */
  function ReadRange(latest: u32, metadata: Option<DatabaseMetadata>): (range: u32)
    ensures StartHeight(metadata) <= latest ==> range == latest - StartHeight(metadata)
    ensures StartHeight(metadata) > latest ==> range == 0
  {
    var dbStart := StartHeight(metadata);
    if latest >= dbStart then TruncateToU32(latest - dbStart) else 0
  }

  /** The lowest height a read visits: the start height when it is not above
      the latest height, and otherwise the latest height alone. */
  function ReadStart(latest: u32, metadata: Option<DatabaseMetadata>): (lo: u32)
    ensures StartHeight(metadata) <= latest ==> lo == StartHeight(metadata)
    ensures StartHeight(metadata) > latest ==> lo == latest
  {
    SaturatingSub(latest, ReadRange(latest, metadata))
  }

  /** The checkpoint written after a record: one more record, same start. */
  function Bumped(m: DatabaseMetadata, now: Timestamp): (next: DatabaseMetadata)
    ensures next.startHeight == m.startHeight
    ensures m.recordCount < U64_MAX ==> next.recordCount == m.recordCount + 1
    ensures next.lastUpdated == now
  {
    DatabaseMetadata(WrappingIncrement(m.recordCount), now, m.startHeight)
  }

  /** What `discover_database` returns for this ledger. */
  function Discovered(blocks: seq<Block>, appId: u32, blockRange: Option<u32>): Result<Option<DatabaseMetadata>, DbError>
    requires |blocks| > 0
  {
    match LatestHeight(blocks)
    case Err(e) => Err(AvailError(e))
    case Ok(latest) => Ok(FirstMetadata(History(blocks, appId, DiscoveryStart(latest, blockRange), latest)))
  }

  /** What `get_record(key)` returns for this ledger and checkpoint. */
  function PointRead(blocks: seq<Block>, appId: u32, metadata: Option<DatabaseMetadata>, key: string): Result<Option<Record>, DbError>
    requires |blocks| > 0
  {
    match LatestHeight(blocks)
    case Err(e) => Err(AvailError(e))
    case Ok(latest) => Ok(FirstMatch(History(blocks, appId, ReadStart(latest, metadata), latest), key))
  }

  /** What `list_records()` returns, as the map it collects. */
  function Listing(blocks: seq<Block>, appId: u32, metadata: Option<DatabaseMetadata>): Result<map<string, Record>, DbError>
    requires |blocks| > 0
  {
    match LatestHeight(blocks)
    case Err(e) => Err(AvailError(e))
    case Ok(latest) => Ok(FirstSeen(History(blocks, appId, ReadStart(latest, metadata), latest)))
  }

  /** The scanning loop of `discover_database`: walks `visit` and stops at
      the first blob that reads as a checkpoint. */
  method FindCheckpoint(visit: seq<Blob>) returns (found: Option<DatabaseMetadata>)
    ensures found == FirstMetadata(visit)
  {
    var j := 0;
    while j < |visit|
      invariant 0 <= j <= |visit|
      invariant forall i :: 0 <= i < j ==> DecodeMetadata(visit[i]).None?
    {
      var metadata := DecodeMetadata(visit[j]);
      if metadata.Some? {
        FirstMetadataIsEarliest(visit, j);
        return metadata;
      }
      j := j + 1;
    }
    return None;
  }

  /** The scanning loop of `get_record`: walks `visit`, skips checkpoints,
      and stops at the first record for `key`. */
  method FindRecord(visit: seq<Blob>, key: string) returns (found: Option<Record>)
    ensures found == FirstMatch(visit, key)
  {
    var j := 0;
    while j < |visit|
      invariant 0 <= j <= |visit|
      invariant forall i :: 0 <= i < j ==> !Matches(visit[i], key)
    {
      var blob := visit[j];
      if DecodeMetadata(blob).None? {
        var record := DecodeRecord(blob);
        if record.Some? && record.value.key == key {
          FirstMatchIsEarliest(visit, key, j);
          return record;
        }
      }
      j := j + 1;
    }
    return None;
  }

  /** The collecting loop of `list_records`: walks `visit`, skips
      checkpoints, and keeps the first record seen for each key. */
  method CollectRecords(visit: seq<Blob>) returns (m: map<string, Record>)
    ensures m == FirstSeen(visit)
  {
    m := map[];
    var j := 0;
    while j < |visit|
      invariant 0 <= j <= |visit|
      invariant m == FirstSeen(visit[..j])
    {
      var blob := visit[j];
      ghost var seen := m;
      if DecodeMetadata(blob).None? {
        var record := DecodeRecord(blob);
        if record.Some? && record.value.key !in m {
          m := m[record.value.key := record.value];
        }
      }
      assert m == FirstSeen(visit[..j + 1]) by {
        InsertSkipsCheckpoints(seen, blob);
        FirstSeenStep(visit, j);
      }
      j := j + 1;
    }
    assert visit[..|visit|] == visit;
  }

  class DatabaseClient {
    const appId: u32
    const blockRange: Option<u32>
    var metadata: Option<DatabaseMetadata>

    constructor (appId: u32, blockRange: Option<u32>)
      ensures this.appId == appId && this.blockRange == blockRange
      ensures metadata == None
    {
      this.appId := appId;
      this.blockRange := blockRange;
      metadata := None;
    }

    /** `DatabaseClient::new`: adopts the checkpoint discovery finds and
        appends nothing; otherwise appends one fresh checkpoint (no records,
        starting at the current height) and holds that same value. No client
        results when an append or a height query fails. */
    static method Open(appId: u32, blockRange: Option<u32>, ledger: Ledger, now: Timestamp, status: Option<bool>)
      returns (r: Result<DatabaseClient, DbError>)
      requires ledger.Valid()
      modifies ledger
      ensures ledger.Valid()
      ensures Discovered(old(ledger.blocks), appId, blockRange).Err? ==>
                r == Err(Discovered(old(ledger.blocks), appId, blockRange).error) &&
                ledger.blocks == old(ledger.blocks)
      ensures Discovered(old(ledger.blocks), appId, blockRange).Ok? &&
              Discovered(old(ledger.blocks), appId, blockRange).value.Some? ==>
                r.Ok? && fresh(r.value) &&
                r.value.appId == appId && r.value.blockRange == blockRange &&
                r.value.metadata == Discovered(old(ledger.blocks), appId, blockRange).value &&
                ledger.blocks == old(ledger.blocks)
      ensures Discovered(old(ledger.blocks), appId, blockRange) == Ok(None) ==>
                var created := DatabaseMetadata(0, now, |old(ledger.blocks)| - 1);
                if status == Some(true) then
                  r.Ok? && fresh(r.value) &&
                  r.value.appId == appId && r.value.blockRange == blockRange &&
                  r.value.metadata == Some(created) &&
                  ledger.blocks == old(ledger.blocks) + [[Submission(appId, EncodeMetadata(created))]]
                else
                  r == Err(AvailError(TRANSACTION_FAILED)) && ledger.blocks == old(ledger.blocks)
    {
      var client := new DatabaseClient(appId, blockRange);
      var found := client.DiscoverDatabase(ledger);
      if found.Err? {
        return Err(found.error);
      }
      if found.value.Some? {
        client.metadata := found.value;
        return Ok(client);
      }
      var height := LatestHeight(ledger.blocks);
      if height.Err? {
        return Err(AvailError(HEIGHT_TOO_LARGE));
      }
      var created := DatabaseMetadata(0, now, height.value);
      var saved := client.SaveMetadata(ledger, created, status);
      if saved.Err? {
        return Err(saved.error);
      }
      client.metadata := Some(created);
      return Ok(client);
    }

    /** `discover_database`: the first blob of the lookback window, in the
        store's visit order, that reads as a checkpoint. */
    method DiscoverDatabase(ledger: Ledger) returns (r: Result<Option<DatabaseMetadata>, DbError>)
      requires ledger.Valid()
      ensures r == Discovered(ledger.blocks, appId, blockRange)
    {
      var height := LatestHeight(ledger.blocks);
      if height.Err? {
        return Err(AvailError(height.error));
      }
      var latest := height.value;
      var start := DiscoveryStart(latest, blockRange);
      var fetched := FetchByAppId(ledger.blocks, appId, latest - start);
      if fetched.Err? {
        return Err(AvailError(HEIGHT_TOO_LARGE));
      }
      var data := fetched.value;
      assert Reverse(data) == History(ledger.blocks, appId, start, latest) by {
        FetchIsReversedHistory(ledger.blocks, appId, start, latest);
        ReverseReverse(History(ledger.blocks, appId, start, latest));
      }
      var found := FindCheckpoint(Reverse(data));
      return Ok(found);
    }

    /** `save_metadata`: appends the encoded checkpoint. */
    method SaveMetadata(ledger: Ledger, m: DatabaseMetadata, status: Option<bool>) returns (r: Result<(), DbError>)
      requires ledger.Valid()
      modifies ledger
      ensures ledger.Valid()
      ensures r.Ok? <==> status == Some(true)
      ensures r.Err? ==> r.error == AvailError(TRANSACTION_FAILED)
      ensures ledger.blocks == if r.Ok? then old(ledger.blocks) + [[Submission(appId, EncodeMetadata(m))]]
                               else old(ledger.blocks)
    {
      var json := EncodeMetadata(m);
      var submitted := ledger.Submit(appId, json, status);
      if submitted.Err? {
        return Err(AvailError(submitted.error));
      }
      return Ok(());
    }

    /** `add_record`: appends the record; when a checkpoint is held, appends
        the bumped checkpoint and adopts it only once that append succeeded.
        A failed record append changes nothing. */
    method AddRecord(ledger: Ledger, record: Record, now: Timestamp,
                     recordStatus: Option<bool>, metadataStatus: Option<bool>)
      returns (r: Result<(), DbError>)
      requires ledger.Valid()
      modifies this, ledger
      ensures ledger.Valid()
      ensures metadata.Some? ==> old(metadata).Some? && metadata.value.startHeight == old(metadata).value.startHeight
      ensures recordStatus != Some(true) ==>
                r == Err(AvailError(TRANSACTION_FAILED)) &&
                ledger.blocks == old(ledger.blocks) && metadata == old(metadata)
      ensures recordStatus == Some(true) && old(metadata).None? ==>
                r == Ok(()) && metadata == None &&
                ledger.blocks == old(ledger.blocks) + [[Submission(appId, EncodeRecord(record))]]
      ensures recordStatus == Some(true) && old(metadata).Some? ==>
                var next := Bumped(old(metadata).value, now);
                var afterRecord := old(ledger.blocks) + [[Submission(appId, EncodeRecord(record))]];
                if metadataStatus == Some(true) then
                  r == Ok(()) && metadata == Some(next) &&
                  ledger.blocks == afterRecord + [[Submission(appId, EncodeMetadata(next))]]
                else
                  r == Err(AvailError(TRANSACTION_FAILED)) && metadata == old(metadata) &&
                  ledger.blocks == afterRecord
    {
      var json := EncodeRecord(record);
      var submitted := ledger.Submit(appId, json, recordStatus);
      if submitted.Err? {
        return Err(AvailError(submitted.error));
      }
      if metadata.Some? {
        var next := Bumped(metadata.value, now);
        var saved := SaveMetadata(ledger, next, metadataStatus);
        if saved.Err? {
          return Err(saved.error);
        }
        metadata := Some(next);
      }
      return Ok(());
    }

    /** `get_record`: skips checkpoints and returns the first record, in the
        store's visit order, whose key is `key`; `Ok(None)` when there is none. */
    method GetRecord(ledger: Ledger, key: string) returns (r: Result<Option<Record>, DbError>)
      requires ledger.Valid()
      ensures r == PointRead(ledger.blocks, appId, metadata, key)
    {
      var height := LatestHeight(ledger.blocks);
      if height.Err? {
        return Err(AvailError(height.error));
      }
      var latest := height.value;
      var range := ReadRange(latest, metadata);
      var fetched := FetchByAppId(ledger.blocks, appId, range);
      if fetched.Err? {
        return Err(AvailError(HEIGHT_TOO_LARGE));
      }
      var blobs := fetched.value;
      assert Reverse(blobs) == History(ledger.blocks, appId, ReadStart(latest, metadata), latest) by {
        FetchIsReversedHistory(ledger.blocks, appId, ReadStart(latest, metadata), latest);
        ReverseReverse(History(ledger.blocks, appId, ReadStart(latest, metadata), latest));
      }
      PointReadScansWindow(ledger.blocks, appId, metadata, key, ReadStart(latest, metadata));
      var found := FindRecord(Reverse(blobs), key);
      return Ok(found);
    }

    /** `list_records`: one record per key, the first one visited for it,
        collected with `entry(key).or_insert(record)`. */
    method ListRecords(ledger: Ledger) returns (r: Result<map<string, Record>, DbError>)
      requires ledger.Valid()
      ensures r == Listing(ledger.blocks, appId, metadata)
    {
      var height := LatestHeight(ledger.blocks);
      if height.Err? {
        return Err(AvailError(height.error));
      }
      var latest := height.value;
      var range := ReadRange(latest, metadata);
      var fetched := FetchByAppId(ledger.blocks, appId, range);
      if fetched.Err? {
        return Err(AvailError(HEIGHT_TOO_LARGE));
      }
      var blobs := fetched.value;
      assert Reverse(blobs) == History(ledger.blocks, appId, ReadStart(latest, metadata), latest) by {
        FetchIsReversedHistory(ledger.blocks, appId, ReadStart(latest, metadata), latest);
        ReverseReverse(History(ledger.blocks, appId, ReadStart(latest, metadata), latest));
      }
      ListingScansWindow(ledger.blocks, appId, metadata, ReadStart(latest, metadata));
      var m := CollectRecords(Reverse(blobs));
      return Ok(m);
    }

    // The three scans as they were evidently meant to run: over the fetched
    // list in the order it is fetched, most recent first.

    /** Discovery that adopts the most recent checkpoint of the window. */
    method DiscoverLatestDatabase(ledger: Ledger) returns (r: Result<Option<DatabaseMetadata>, DbError>)
      requires ledger.Valid()
      ensures r == LatestDiscovered(ledger.blocks, appId, blockRange)
    {
      var height := LatestHeight(ledger.blocks);
      if height.Err? {
        return Err(AvailError(height.error));
      }
      var latest := height.value;
      var start := DiscoveryStart(latest, blockRange);
      var fetched := FetchByAppId(ledger.blocks, appId, latest - start);
      if fetched.Err? {
        return Err(AvailError(HEIGHT_TOO_LARGE));
      }
      var found := FindCheckpoint(fetched.value);
      return Ok(found);
    }

    /** The point read that returns the most recent record for `key`. */
    method GetLatestRecord(ledger: Ledger, key: string) returns (r: Result<Option<Record>, DbError>)
      requires ledger.Valid()
      ensures r == LatestPointRead(ledger.blocks, appId, metadata, key)
    {
      var height := LatestHeight(ledger.blocks);
      if height.Err? {
        return Err(AvailError(height.error));
      }
      var latest := height.value;
      var fetched := FetchByAppId(ledger.blocks, appId, ReadRange(latest, metadata));
      if fetched.Err? {
        return Err(AvailError(HEIGHT_TOO_LARGE));
      }
      var found := FindRecord(fetched.value, key);
      return Ok(found);
    }

    /** The enumeration that keeps the most recent record for each key. */
    method ListLatestRecords(ledger: Ledger) returns (r: Result<map<string, Record>, DbError>)
      requires ledger.Valid()
      ensures r == LatestListing(ledger.blocks, appId, metadata)
    {
      var height := LatestHeight(ledger.blocks);
      if height.Err? {
        return Err(AvailError(height.error));
      }
      var latest := height.value;
      var fetched := FetchByAppId(ledger.blocks, appId, ReadRange(latest, metadata));
      if fetched.Err? {
        return Err(AvailError(HEIGHT_TOO_LARGE));
      }
      var m := CollectRecords(fetched.value);
      return Ok(m);
    }
  }

  // ---------------------------------------------------------------------
  // Properties of the read path

  /** Point read and enumeration agree: they fail together, and
      `get_record(key)` returns `r` exactly when `r` is listed with key `key`. */
  lemma PointReadAgreesWithListing(blocks: seq<Block>, appId: u32, metadata: Option<DatabaseMetadata>, key: string, r: Record)
    requires |blocks| > 0
    ensures PointRead(blocks, appId, metadata, key).Err? <==> Listing(blocks, appId, metadata).Err?
    ensures PointRead(blocks, appId, metadata, key) == Ok(Some(r)) <==>
            (Listing(blocks, appId, metadata).Ok? && r in Listing(blocks, appId, metadata).value.Values && r.key == key)
  {
    if LatestHeight(blocks).Ok? {
      var latest := LatestHeight(blocks).value;
      GetIffListed(History(blocks, appId, ReadStart(latest, metadata), latest), key, r);
    }
  }

  /** A record submitted outside the window, below the checkpoint's start
      height, is invisible to both reads. */
  lemma BelowStartIsInvisible(blocks: seq<Block>, appId: u32, metadata: Option<DatabaseMetadata>, key: string, h: nat, b: Blob)
    requires |blocks| > 0 && h < |blocks| && h < StartHeight(metadata) <= |blocks| - 1
    requires LatestHeight(blocks).Ok?
    requires forall h' :: 0 <= h' < |blocks| && h' != h ==> Submission(appId, b) !in blocks[h']
    ensures b !in History(blocks, appId, ReadStart(|blocks| - 1, metadata), |blocks| - 1)
  {
    HistoryMembership(blocks, appId, ReadStart(|blocks| - 1, metadata), |blocks| - 1, b);
  }

  /** The clamp's fallback: when the start height lies above the latest
      height, the read range is 0 and the read still scans the latest block,
      which lies below the start. */
  lemma StartAboveLatestReadsLatestBlock(blocks: seq<Block>, appId: u32, metadata: Option<DatabaseMetadata>)
    requires |blocks| > 0 && LatestHeight(blocks).Ok?
    requires StartHeight(metadata) > |blocks| - 1
    ensures History(blocks, appId, ReadStart(|blocks| - 1, metadata), |blocks| - 1) ==
            Submissions(blocks[|blocks| - 1], appId)
  {
    var latest := |blocks| - 1;
    assert History(blocks, appId, latest + 1, latest) == [];
  }

  /** As written, a key that already has a visible record keeps it: whatever
      is appended later, the point read and the enumeration return the same
      record as before, so `add` cannot update an existing key. */
  lemma {:induction false} LaterAppendsKeepEarliest(blocks: seq<Block>, more: seq<Block>, appId: u32,
                                                    metadata: Option<DatabaseMetadata>, key: string, r: Record)
    requires |blocks| > 0 && StartHeight(metadata) <= |blocks| - 1
    requires LatestHeight(blocks + more).Ok?
    requires PointRead(blocks, appId, metadata, key) == Ok(Some(r))
    ensures PointRead(blocks + more, appId, metadata, key) == Ok(Some(r))
    ensures Listing(blocks + more, appId, metadata).Ok? && key in Listing(blocks + more, appId, metadata).value
    ensures Listing(blocks + more, appId, metadata).value[key] == r
  {
    var after := blocks + more;
    var latest, latest' := |blocks| - 1, |after| - 1;
    var lo := StartHeight(metadata) as nat;
    var h, t := History(blocks, appId, lo, latest), History(after, appId, latest + 1, latest');
    assert History(after, appId, lo, latest') == h + t by {
      HistoryExtend(blocks, more, appId, lo, latest, latest');
    }
    assert FirstMatch(h, key) == Some(r) by {
      PointReadScansWindow(blocks, appId, metadata, key, lo);
    }
    EarlierRecordWins(h, t, key);
    PointReadScansWindow(after, appId, metadata, key, lo);
    ListingScansWindow(after, appId, metadata, lo);
  }

  /** The two appends of a successful `add_record`. */
  function AfterAdd(blocks: seq<Block>, appId: u32, record: Record, next: DatabaseMetadata): seq<Block> {
    blocks + [[Submission(appId, EncodeRecord(record))]] + [[Submission(appId, EncodeMetadata(next))]]
  }

  /** The window's history after a successful `add_record`: what it held,
      then the record, then the checkpoint. */
  lemma AfterAddHistory(blocks: seq<Block>, appId: u32, lo: nat, r: Record, next: DatabaseMetadata)
    requires 0 < |blocks| && lo <= |blocks| - 1
    ensures History(AfterAdd(blocks, appId, r, next), appId, lo, |blocks| + 1) ==
            History(blocks, appId, lo, |blocks| - 1) + [EncodeRecord(r), EncodeMetadata(next)]
  {
    var after := AfterAdd(blocks, appId, r, next);
    var more := [[Submission(appId, EncodeRecord(r))], [Submission(appId, EncodeMetadata(next))]];
    assert after == blocks + more;
    var latest := |blocks| - 1;
    HistoryExtend(blocks, more, appId, lo, latest, latest + 2);
    assert Submissions(after[latest + 1], appId) == [EncodeRecord(r)];
    assert Submissions(after[latest + 2], appId) == [EncodeMetadata(next)];
    assert History(after, appId, latest + 2, latest + 2) == [EncodeMetadata(next)];
  }

  /** The store's point read scans the read window's history, oldest first. */
  lemma PointReadScansWindow(bs: seq<Block>, appId: u32, metadata: Option<DatabaseMetadata>, key: string, lo: nat)
    requires |bs| > 0 && LatestHeight(bs).Ok? && ReadStart(|bs| - 1, metadata) == lo
    ensures PointRead(bs, appId, metadata, key) == Ok(FirstMatch(History(bs, appId, lo, |bs| - 1), key))
  {
  }

  /** The store's enumeration scans the read window's history, oldest first. */
  lemma ListingScansWindow(bs: seq<Block>, appId: u32, metadata: Option<DatabaseMetadata>, lo: nat)
    requires |bs| > 0 && LatestHeight(bs).Ok? && ReadStart(|bs| - 1, metadata) == lo
    ensures Listing(bs, appId, metadata) == Ok(FirstSeen(History(bs, appId, lo, |bs| - 1)))
  {
  }

  /** The intended reads scan the read window's history most recent first. */
  lemma LatestReadsScanWindow(bs: seq<Block>, appId: u32, metadata: Option<DatabaseMetadata>, key: string, lo: nat)
    requires |bs| > 0 && LatestHeight(bs).Ok? && ReadStart(|bs| - 1, metadata) == lo
    ensures LatestPointRead(bs, appId, metadata, key) == Ok(LatestRecord(History(bs, appId, lo, |bs| - 1), key))
    ensures LatestListing(bs, appId, metadata) == Ok(LatestSeen(History(bs, appId, lo, |bs| - 1)))
  {
    FetchIsReversedHistory(bs, appId, lo, |bs| - 1);
  }

  /** The point read of a ledger whose window history ends with a record and
      then a checkpoint, when no earlier blob of the window matches. */
  lemma ReadAfterRecordThenCheckpoint(bs: seq<Block>, appId: u32, metadata: Option<DatabaseMetadata>,
                                      before: seq<Blob>, r: Record, next: DatabaseMetadata)
    requires |bs| > 0 && LatestHeight(bs).Ok?
    requires History(bs, appId, ReadStart(|bs| - 1, metadata), |bs| - 1) == before + [EncodeRecord(r), EncodeMetadata(next)]
    requires FirstMatch(before, r.key) == None
    ensures PointRead(bs, appId, metadata, r.key) == Ok(Some(r))
  {
    RecordThenCheckpoint(before, r, next);
    PointReadScansWindow(bs, appId, metadata, r.key, ReadStart(|bs| - 1, metadata));
  }

  /** The intended reads of a ledger whose window history ends with a record
      and then a checkpoint, whatever the window held before. */
  lemma LatestReadsAfterRecordThenCheckpoint(bs: seq<Block>, appId: u32, metadata: Option<DatabaseMetadata>,
                                             before: seq<Blob>, r: Record, next: DatabaseMetadata)
    requires |bs| > 0 && LatestHeight(bs).Ok?
    requires History(bs, appId, ReadStart(|bs| - 1, metadata), |bs| - 1) == before + [EncodeRecord(r), EncodeMetadata(next)]
    ensures LatestPointRead(bs, appId, metadata, r.key) == Ok(Some(r))
    ensures LatestListing(bs, appId, metadata).Ok?
    ensures var listed := LatestListing(bs, appId, metadata).value;
            r.key in listed && listed[r.key] == r
  {
    LatestAfterRecordThenCheckpoint(before, r, next);
    LatestReadsScanWindow(bs, appId, metadata, r.key, ReadStart(|bs| - 1, metadata));
  }

  /** The first `add` of a key the window does not hold makes it readable. */
  lemma FirstAddIsVisible(blocks: seq<Block>, appId: u32, metadata: Option<DatabaseMetadata>, r: Record, next: DatabaseMetadata)
    requires |blocks| > 0 && StartHeight(metadata) <= |blocks| - 1
    requires |blocks| + 1 <= U32_MAX
    requires PointRead(blocks, appId, metadata, r.key) == Ok(None)
    ensures PointRead(AfterAdd(blocks, appId, r, next), appId, metadata, r.key) == Ok(Some(r))
  {
    var lo := StartHeight(metadata) as nat;
    var latest := |blocks| - 1;
    var after := AfterAdd(blocks, appId, r, next);
    var before := History(blocks, appId, lo, latest);
    assert FirstMatch(before, r.key) == None by {
      PointReadScansWindow(blocks, appId, metadata, r.key, lo);
    }
    assert |after| == |blocks| + 2 && ReadStart(latest + 2, metadata) == lo;
    assert History(after, appId, lo, latest + 2) == before + [EncodeRecord(r), EncodeMetadata(next)] by {
      AfterAddHistory(blocks, appId, lo, r, next);
    }
    ReadAfterRecordThenCheckpoint(after, appId, metadata, before, r, next);
  }

  /** As written: after `add k v1` and then `add k v2` on a window with no
      record for `k`, the point read returns the FIRST record. */
  lemma SecondAddIsInvisible(blocks: seq<Block>, appId: u32, metadata: Option<DatabaseMetadata>,
                             r1: Record, m1: DatabaseMetadata, r2: Record, m2: DatabaseMetadata)
    requires |blocks| > 0 && StartHeight(metadata) <= |blocks| - 1
    requires |blocks| + 3 <= U32_MAX
    requires r1.key == r2.key
    requires PointRead(blocks, appId, metadata, r1.key) == Ok(None)
    ensures PointRead(AfterAdd(AfterAdd(blocks, appId, r1, m1), appId, r2, m2), appId, metadata, r1.key) == Ok(Some(r1))
  {
    var once := AfterAdd(blocks, appId, r1, m1);
    var twice := AfterAdd(once, appId, r2, m2);
    assert PointRead(once, appId, metadata, r1.key) == Ok(Some(r1)) by {
      FirstAddIsVisible(blocks, appId, metadata, r1, m1);
    }
    assert once + twice[|once|..] == twice;
    LaterAppendsKeepEarliest(once, twice[|once|..], appId, metadata, r1.key, r1);
  }

  // ---------------------------------------------------------------------
  // The most-recent-first reading

  /** The point read the store was meant to have: the fetched list scanned in
      the order it is fetched, most recent first. */
  function LatestPointRead(blocks: seq<Block>, appId: u32, metadata: Option<DatabaseMetadata>, key: string): Result<Option<Record>, DbError>
    requires |blocks| > 0
  {
    match LatestHeight(blocks)
    case Err(e) => Err(AvailError(e))
    case Ok(latest) => Ok(FirstMatch(FetchRange(blocks, appId, ReadStart(latest, metadata), latest), key))
  }

  /** The enumeration the store was meant to have. */
  function LatestListing(blocks: seq<Block>, appId: u32, metadata: Option<DatabaseMetadata>): Result<map<string, Record>, DbError>
    requires |blocks| > 0
  {
    match LatestHeight(blocks)
    case Err(e) => Err(AvailError(e))
    case Ok(latest) => Ok(FirstSeen(FetchRange(blocks, appId, ReadStart(latest, metadata), latest)))
  }

  /** The discovery the store was meant to have. */
  function LatestDiscovered(blocks: seq<Block>, appId: u32, blockRange: Option<u32>): Result<Option<DatabaseMetadata>, DbError>
    requires |blocks| > 0
  {
    match LatestHeight(blocks)
    case Err(e) => Err(AvailError(e))
    case Ok(latest) => Ok(FirstMetadata(FetchRange(blocks, appId, DiscoveryStart(latest, blockRange), latest)))
  }

  /** Last write wins: right after a successful `add_record`, the intended
      point read and enumeration both return the record just written,
      whatever the window held before. */
  lemma LatestAddWins(blocks: seq<Block>, appId: u32, metadata: Option<DatabaseMetadata>, r: Record, next: DatabaseMetadata)
    requires |blocks| > 0 && StartHeight(metadata) <= |blocks| - 1
    requires |blocks| + 1 <= U32_MAX
    ensures LatestPointRead(AfterAdd(blocks, appId, r, next), appId, metadata, r.key) == Ok(Some(r))
    ensures LatestListing(AfterAdd(blocks, appId, r, next), appId, metadata).Ok?
    ensures var listed := LatestListing(AfterAdd(blocks, appId, r, next), appId, metadata).value;
            r.key in listed && listed[r.key] == r
  {
    var lo := StartHeight(metadata) as nat;
    var latest := |blocks| - 1;
    var after := AfterAdd(blocks, appId, r, next);
    var before := History(blocks, appId, lo, latest);
    assert |after| == |blocks| + 2 && ReadStart(latest + 2, metadata) == lo;
    assert History(after, appId, lo, latest + 2) == before + [EncodeRecord(r), EncodeMetadata(next)] by {
      AfterAddHistory(blocks, appId, lo, r, next);
    }
    LatestReadsAfterRecordThenCheckpoint(after, appId, metadata, before, r, next);
  }

  /** Intended discovery adopts the checkpoint appended last in the window. */
  lemma LatestDiscoveryTakesLastCheckpoint(blocks: seq<Block>, appId: u32, blockRange: Option<u32>)
    requires |blocks| > 0 && LatestHeight(blocks).Ok?
    ensures var latest := |blocks| - 1;
            var history := History(blocks, appId, DiscoveryStart(latest, blockRange), latest);
            LatestDiscovered(blocks, appId, blockRange) == Ok(LatestMetadata(history))
  {
    var latest := |blocks| - 1;
    FetchIsReversedHistory(blocks, appId, DiscoveryStart(latest, blockRange), latest);
  }

  /** As written: discovery adopts the OLDEST checkpoint of its window, even
      when later checkpoints, with higher counts, follow it. */
  lemma DiscoveryTakesEarliestCheckpoint(blocks: seq<Block>, appId: u32, blockRange: Option<u32>,
                                         before: seq<Blob>, m: DatabaseMetadata, after: seq<Blob>)
    requires |blocks| > 0 && LatestHeight(blocks).Ok?
    requires History(blocks, appId, DiscoveryStart(|blocks| - 1, blockRange), |blocks| - 1) ==
             before + [EncodeMetadata(m)] + after
    requires forall i :: 0 <= i < |before| ==> DecodeMetadata(before[i]).None?
    ensures Discovered(blocks, appId, blockRange) == Ok(Some(m))
  {
    OldestCheckpointFirst(before, m, after);
  }

  /** Corrected: discovery adopts the checkpoint no other checkpoint follows,
      whatever came before it. */
  lemma LatestDiscoveryTakesNewestCheckpoint(blocks: seq<Block>, appId: u32, blockRange: Option<u32>,
                                             before: seq<Blob>, m: DatabaseMetadata, after: seq<Blob>)
    requires |blocks| > 0 && LatestHeight(blocks).Ok?
    requires History(blocks, appId, DiscoveryStart(|blocks| - 1, blockRange), |blocks| - 1) ==
             before + [EncodeMetadata(m)] + after
    requires forall i :: 0 <= i < |after| ==> DecodeMetadata(after[i]).None?
    ensures LatestDiscovered(blocks, appId, blockRange) == Ok(Some(m))
  {
    LatestDiscoveryTakesLastCheckpoint(blocks, appId, blockRange);
    NewestCheckpointLast(before, m, after);
  }

  /** A window that holds no checkpoint has none in any narrower window with
      the same upper end. */
  lemma {:induction false} NoCheckpointInSuffix(blocks: seq<Block>, appId: u32, lo: nat, lo': nat, hi: nat)
    requires lo <= lo' <= hi + 1 && hi < |blocks|
    requires FirstMetadata(History(blocks, appId, lo, hi)).None?
    ensures FirstMetadata(History(blocks, appId, lo', hi)).None?
    decreases lo' - lo
  {
    if lo < lo' {
      var here, later := Submissions(blocks[lo], appId), History(blocks, appId, lo + 1, hi);
      assert forall i :: 0 <= i < |later| ==> later[i] == (here + later)[|here| + i];
      NoCheckpointInSuffix(blocks, appId, lo + 1, lo', hi);
    }
  }

  /** Bootstrap is idempotent: when discovery finds no checkpoint, the one
      `Open` then appends is what every later discovery finds while it stays
      in the lookback window, whatever is appended after it, so a later start
      recovers the same start height. */
  lemma OpenThenDiscover(blocks: seq<Block>, more: seq<Block>, appId: u32, blockRange: Option<u32>,
                         c: DatabaseMetadata)
    requires |blocks| > 0 && |blocks| + |more| <= U32_MAX
    requires |more| <= blockRange.GetOr(DEFAULT_BLOCK_RANGE)
    requires Discovered(blocks, appId, blockRange) == Ok(None)
    ensures Discovered(blocks + [[Submission(appId, EncodeMetadata(c))]] + more, appId, blockRange) ==
            Ok(Some(c))
  {
    var latest := |blocks| - 1;
    var cp := [[Submission(appId, EncodeMetadata(c))]];
    var all := blocks + cp + more;
    var latest' := |all| - 1;
    var lo' := DiscoveryStart(latest', blockRange);
    NoCheckpointInSuffix(blocks, appId, DiscoveryStart(latest, blockRange), lo', latest);
    AppendAssoc(blocks, cp, more);
    HistoryExtend(blocks, cp + more, appId, lo', latest, latest');
    var before := History(blocks, appId, lo', latest);
    var rest := History(all, appId, latest + 2, latest');
    assert all[latest + 1] == [Submission(appId, EncodeMetadata(c))];
    assert History(all, appId, latest + 1, latest') == [EncodeMetadata(c)] + rest;
    AppendAssoc(before, [EncodeMetadata(c)], rest);
    OldestCheckpointFirst(before, c, rest);
  }

  /** The limit of that idempotence: once more blocks than the lookback range
      follow the last checkpoint with no new one among them, discovery finds
      nothing, and the next `Open` starts a new database at the current
      height. */
  lemma CheckpointOutOfWindowIsForgotten(blocks: seq<Block>, more: seq<Block>, appId: u32,
                                         blockRange: Option<u32>)
    requires |blocks| > 0 && |blocks| + |more| <= U32_MAX + 1
    requires |more| > blockRange.GetOr(DEFAULT_BLOCK_RANGE)
    requires FirstMetadata(History(blocks + more, appId, |blocks|, |blocks| + |more| - 1)).None?
    ensures Discovered(blocks + more, appId, blockRange) == Ok(None)
  {
    var all := blocks + more;
    NoCheckpointInSuffix(all, appId, |blocks|, DiscoveryStart(|all| - 1, blockRange), |all| - 1);
  }

  /** Under the most-recent-first reading, a checkpoint just appended is what
      discovery adopts, whatever the window held before. */
  lemma LatestDiscoveryAfterSave(blocks: seq<Block>, appId: u32, blockRange: Option<u32>, c: DatabaseMetadata)
    requires |blocks| > 0 && |blocks| <= U32_MAX
    ensures LatestDiscovered(blocks + [[Submission(appId, EncodeMetadata(c))]], appId, blockRange) == Ok(Some(c))
  {
    var latest := |blocks| - 1;
    var more := [[Submission(appId, EncodeMetadata(c))]];
    var lo' := DiscoveryStart(latest + 1, blockRange);
    HistoryExtend(blocks, more, appId, lo', latest, latest + 1);
    var before := History(blocks, appId, lo', latest);
    assert History(blocks + more, appId, latest + 1, latest + 1) == [EncodeMetadata(c)];
    assert before + [EncodeMetadata(c)] + [] == before + [EncodeMetadata(c)];
    LatestDiscoveryTakesNewestCheckpoint(blocks + more, appId, blockRange, before, c, []);
  }
}
