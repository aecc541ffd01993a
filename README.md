# A key/value store on an append-only ledger, modelled in Dafny

The modelled system is a small key/value database. It keeps no storage of its
own: every write is a blob submitted to a data-availability ledger (Avail)
under the application's id. Every read fetches the recent blocks again and
scans their blobs.

Two kinds of blob are written:
- a **record**: key, value, creation time, optional update time, UUID;
- a **metadata checkpoint**: record count, last update time, and the start
  height from which reads scan.

The client does four things:
- **Bootstrap.** It looks for a checkpoint in a lookback window of recent
  blocks and adopts it. If there is none, it appends a fresh checkpoint.
- **Write.** It appends a record, then a checkpoint whose count is one higher.
- **Point read.** It scans the window for the first record with a given key.
- **Enumeration.** It scans the window and keeps one record per key.

A command-line front end parses one line of input into a command, and checks
the start-up arguments.

## How the model is built

The network, the SDK and block-hash lookup are replaced by an abstract ledger:
- a sequence of blocks indexed by height, each block a sequence of
  `Submission(appId, blob)`;
- the latest height is the last index;
- `Avail.Ledger.Submit` appends one new block holding the blob alone,
  provided the reported inclusion outcome is success.

The modules, in dependency order:
- `Basics`: `Option`, `Result`, `u32`/`u64` as bounded subset types, and
  explicit saturating subtraction, truncating cast and wrapping increment.
- `Schema`: records, checkpoints and the two error kinds. The untagged serde
  codec is modelled as JSON objects, i.e. maps from field name to value.
  Because the two shapes share no field name, neither decodes as the other.
- `Avail`: the per-block filter and reversal (`BlockData`) and the
  descending-height fetch loop (`FetchByAppId`). Both are methods proved
  against the function `FetchRange`. `FetchIsReversedHistory` shows that the
  fetched list is the window's ledger history (`History`), most recent first.
- `Scan`: what the store's three scan loops compute, as functions over the
  list of blobs in the order the store visits them: `FirstMetadata`,
  `FirstMatch` and `FirstSeen`. It also holds the lemmas relating them.
- `Store`: the `DatabaseClient` class, whose mutable field `metadata` is the
  in-memory checkpoint. The three scanning methods are proved equal to a
  specification function of the ledger: `Discovered`, `PointRead` or
  `Listing`. `Open`, `SaveMetadata` and `AddRecord` change the ledger, and
  their contracts state the new ledger and the new checkpoint in terms of the
  old ones. The scan
  loops are the methods `FindCheckpoint`, `FindRecord` and `CollectRecords`.
  Each of them walks a visit order, and the client passes `Reverse(fetched)`,
  which is the source's `iter().rev()`.
- `Commands`: `Command::from_str` (the tokenizer, the lower-casing of the
  command word and the dispatch), plus the argument checks and the block-range
  default of `main`.

Because the fetch is most recent first and the store reverses it again, the
store visits blobs oldest first. The model proves that behaviour as written
(see "## Findings"). It also defines the most-recent-first reading that was
evidently intended, and proves last-write-wins about it.

## Model

| member | source | states |
|---|---|---|
| Basics.SaturatingSub | src/avail.rs:167 | `latest.saturating_sub(range)` never goes below zero; exactly `min(a, b)` is subtracted |
| Basics.TruncateToU32 | src/db.rs:126 | the `as u32` cast keeps the value whenever it fits in 32 bits |
| Basics.WrappingIncrement | src/db.rs:107 | `record_count += 1` adds one below `u64::MAX` and wraps to 0 at it |
| Schema.NewRecord | src/schema.rs:27-35 | `Record::new` keeps key and value verbatim, takes the clock reading and the UUID, and sets `updated_at` to `None` |
| Schema.DefaultMetadata | src/schema.rs:46-53 | the default checkpoint has `record_count == 0` and `start_height == 1` |
| Schema.EncodeRecord | src/schema.rs:16-24 | an encoded record has exactly the record's five fields, decodes back to itself, and never decodes as a checkpoint |
| Schema.EncodeMetadata | src/schema.rs:38-44 | an encoded checkpoint has exactly its three fields, decodes back to itself, and never decodes as a record |
| Schema.DecodeRecord | src/db.rs:140 | a blob decodes as a record only if it is an object with every required record field (`updated_at` may be absent) |
| Schema.DecodeMetadata | src/db.rs:77 | a blob decodes as a checkpoint only if it is an object with all three checkpoint fields |
| Avail.Submissions | src/avail.rs:146 | the app-id filter of one block keeps at most as many blobs as the block holds |
| Avail.SubmissionsMembership | src/avail.rs:146 | the per-block filter yields a blob exactly when the block holds it under the requested app id |
| Avail.LatestHeight | src/avail.rs:121-122 | a latest height above `u32::MAX` is rejected with "Block height too large to fit into u32", never truncated |
| Avail.BlockData | src/avail.rs:140-154 | the per-block list is the block's submissions for the app id, in reverse on-ledger order |
| Avail.FetchByAppId | src/avail.rs:157-175 | the fetch fails exactly when the height query does; otherwise it is the per-block lists for heights `latest` down to `latest.saturating_sub(range)`, concatenated from the highest height down |
| Avail.FetchIsReversedHistory | src/avail.rs:165-172 | the fetched list is the window's history in ledger order, reversed: nothing dropped, duplicated or reordered otherwise |
| Avail.HistoryMembership | src/avail.rs:146 | a blob is in the window's history exactly when it was submitted under the app id at some height of the window |
| Avail.HistoryExtend | src/avail.rs:168 | appending blocks above the window leaves what it held unchanged; widening the window appends the new blocks' history |
| Avail.Ledger.Submit | src/avail.rs:84-88 | a submission succeeds exactly when inclusion reports success; on success one new block holding the blob is appended, otherwise "Transaction failed" and the ledger is unchanged (inclusion failure only; see "## Left out") |
| Scan.VisibleRecord | src/db.rs:137-140 | a blob yields a record only when it does not read as a checkpoint, and then it yields exactly its record decoding |
| Scan.EncodedBlobsRead | src/db.rs:137-140 | an encoded record is visible to reads as itself; an encoded checkpoint is skipped, never read as a record |
| Scan.FirstMetadata | src/db.rs:76-81 | discovery finds nothing exactly when no visited blob decodes as a checkpoint |
| Scan.FirstMetadataIsFirst | src/db.rs:76-81 | a found checkpoint is the decoding of some visited blob, and no earlier blob decodes as a checkpoint |
| Scan.FirstMetadataIsEarliest | src/db.rs:77-79 | a checkpoint with no checkpoint before it is the one discovery returns |
| Scan.FirstMatch | src/db.rs:136-148 | a returned record has the queried key; nothing is returned exactly when no visited blob is a record with that key |
| Scan.FirstMatchIsFirst | src/db.rs:136-146 | a returned record belongs to a matching blob with no matching blob before it |
| Scan.FirstMatchIsEarliest | src/db.rs:140-144 | a matching record with no match before it is the one returned |
| Scan.FirstMatchSnoc | src/db.rs:136-146 | visiting one more blob changes the point read only when nothing matched yet and the new blob matches |
| Scan.FirstSeen | src/db.rs:172-181 | every record of the enumeration map is filed under its own key, so listed keys are pairwise distinct |
| Scan.ListAgreesWithGet | src/db.rs:172-181 | the enumeration holds a key exactly when the point read finds it, and then holds the very record the point read returns |
| Scan.GetIffListed | src/db.rs:172-184 | `get_record(k) == Some(r)` exactly when `r` is among the listed records with key `k` |
| Scan.ListCoversEveryKey | src/db.rs:174-181 | a key is listed exactly when some visited blob is a visible record with that key |
| Scan.FirstMatchOfPrefix | src/db.rs:136-146 | once a prefix holds a match, blobs visited after it do not change the answer |
| Scan.RecordThenCheckpoint | src/db.rs:98-111 | after the write path's record and checkpoint, a key that had no record reads as the new record |
| Scan.EarlierRecordWins | src/db.rs:136-146 | as written, a record visited first for its key is what both reads return, whatever is visited after it |
| Scan.LatestRecordIsLast | src/main.rs:112 | the most-recent-first point read returns the LAST matching record of the history, and nothing exactly when there is none |
| Scan.LatestMetadataIsLast | src/db.rs:76-81 | the most-recent-first discovery adopts the LAST checkpoint of the history, and nothing exactly when there is none |
| Scan.LaterRecordWins | src/main.rs:112 | under the most-recent-first reading, a later record for a key hides every earlier one, for both reads |
| Scan.OldestCheckpointFirst | src/db.rs:76-81 | as written, the first checkpoint visited is adopted, whatever follows it |
| Scan.NewestCheckpointLast | src/db.rs:76-81 | under the most-recent-first reading, the checkpoint no later checkpoint follows is adopted |
| Scan.LatestAfterRecordThenCheckpoint | src/db.rs:98-111 | right after the write path's two appends, the most-recent-first reads return the record just written |
| Store.DiscoveryStart | src/db.rs:58-62 | the discovery window starts `min(range, latest)` below the latest height, with range defaulting to 10 |
| Store.ReadRange | src/db.rs:125-129 | the read range is `latest - start_height`, or 0 when the start lies above the latest height |
| Store.ReadStart | src/db.rs:120-129 | reads start at the checkpoint's start height (0 without one), or at the latest height alone when the start lies above it |
| Store.Bumped | src/db.rs:106-108 | the next checkpoint keeps the start height, counts one more record, and carries the new time |
| Store.FindCheckpoint | src/db.rs:76-81 | the discovery loop returns the first blob of its visit order that decodes as a checkpoint, or none |
| Store.FindRecord | src/db.rs:136-148 | the point-read loop returns the first visible record for the key in its visit order, or none |
| Store.CollectRecords | src/db.rs:172-181 | the enumeration loop builds the first-seen-wins map of its visit order |
| Store.DatabaseClient.constructor | src/db.rs:24-28 | a client starts with its app id and range and no checkpoint |
| Store.DatabaseClient.Open | src/db.rs:20-51 | a found checkpoint is adopted unchanged and nothing is appended; otherwise exactly one checkpoint (count 0, start = current height) is appended and held; no client on a failed append or query |
| Store.DatabaseClient.DiscoverDatabase | src/db.rs:53-85 | discovery returns the first checkpoint, oldest first, of heights `latest - min(range ?? 10, latest)` to `latest` |
| Store.DatabaseClient.SaveMetadata | src/db.rs:87-96 | saving appends exactly the encoded checkpoint, or fails on an unsuccessful inclusion and changes nothing |
| Store.DatabaseClient.AddRecord | src/db.rs:98-114 | a record append whose inclusion fails changes nothing; otherwise the record, then the bumped checkpoint, are appended, and the new checkpoint is held only once its append succeeded |
| Store.DatabaseClient.GetRecord | src/db.rs:116-149 | the point read scans the read window oldest first, skips checkpoints and returns the first record with the key; a missing key is `Ok(None)`; the client is not modified |
| Store.DatabaseClient.ListRecords | src/db.rs:151-185 | the enumeration holds, per key, the first record of the read window, oldest first |
| Store.DatabaseClient.DiscoverLatestDatabase | src/db.rs:76 | corrected discovery scans the fetched list in fetch order and adopts the most recent checkpoint |
| Store.DatabaseClient.GetLatestRecord | src/db.rs:136 | corrected point read scans the fetched list in fetch order, most recent first |
| Store.DatabaseClient.ListLatestRecords | src/db.rs:174 | corrected enumeration keeps the most recent record per key |
| Store.PointReadAgreesWithListing | src/db.rs:116-185 | point read and enumeration fail together, and `get_record(k) == Some(r)` exactly when `r` is listed with key `k` |
| Store.BelowStartIsInvisible | src/db.rs:120-134 | when the start height is not above the latest height, a blob submitted only below it is outside the read window |
| Store.StartAboveLatestReadsLatestBlock | src/db.rs:125-129 | when the start height lies above the latest height, the clamped range is 0 and the read scans exactly the latest block |
| Store.LaterAppendsKeepEarliest | src/db.rs:136-146 | as written, once a key reads as `r`, no later append changes what the point read or the enumeration returns for it |
| Store.AfterAddHistory | src/db.rs:102-109 | after a successful `add_record`, the window's history is what it was, then the record, then the checkpoint |
| Store.LatestReadsScanWindow | src/db.rs:136 | the corrected reads are the last match and the last-seen map of the read window's history |
| Store.ReadAfterRecordThenCheckpoint | src/db.rs:98-146 | a window ending in a record and its checkpoint, with no earlier match, reads as that record |
| Store.LatestReadsAfterRecordThenCheckpoint | src/db.rs:98-146 | a window ending in a record and its checkpoint reads as that record under the corrected reads, whatever came before |
| Store.FirstAddIsVisible | src/db.rs:98-146 | adding a key the window does not hold makes the point read return the new record |
| Store.SecondAddIsInvisible | src/db.rs:136-146 | as written, adding a key twice leaves the point read returning the FIRST record |
| Store.LatestAddWins | src/main.rs:112 | under the corrected reads, the record just added is what both reads return, whatever the window held |
| Store.LatestDiscoveryTakesLastCheckpoint | src/db.rs:76-81 | corrected discovery returns the last checkpoint of the discovery window's history |
| Store.DiscoveryTakesEarliestCheckpoint | src/db.rs:76-81 | as written, discovery adopts the oldest checkpoint of its window, whatever later checkpoints follow |
| Store.LatestDiscoveryTakesNewestCheckpoint | src/db.rs:76-81 | corrected discovery adopts the checkpoint that no later checkpoint follows |
| Store.NoCheckpointInSuffix | src/db.rs:58-81 | a lookback window with no checkpoint has none in any narrower window ending at the same height |
| Store.OpenThenDiscover | src/db.rs:30-48 | bootstrap is idempotent: when discovery finds nothing, the checkpoint `new` appends is what discovery adopts as long as no more than the lookback range of blocks follow it, whatever they hold, so a later start recovers the same start height |
| Store.CheckpointOutOfWindowIsForgotten | src/db.rs:58-81 | once more blocks than the lookback range follow with no checkpoint among them, discovery finds nothing, so `new` starts a new database at the current height |
| Store.LatestDiscoveryAfterSave | src/db.rs:44 | under the corrected reading, a checkpoint just appended is what discovery adopts, whatever the window held before |
| Commands.IsWhitespace | src/main.rs:28 | the white-space test `split_whitespace` uses: space, tab, line feed and carriage return are white space, ASCII letters and digits are not |
| Commands.WordLength | src/main.rs:28 | the word at the start of a line ends at the first whitespace character or at the end of the line |
| Commands.Tokens | src/main.rs:28 | `trim().split_whitespace()` yields only words, each non-empty and free of white space, and no more tokens than the line has characters |
| Commands.NoTokensIffBlank | src/main.rs:28-31 | a line has no tokens exactly when it is whitespace only |
| Commands.BlankPrefixVanishes | src/main.rs:28 | leading whitespace contributes no token (what `trim` removes) |
| Commands.WordTokens | src/main.rs:28 | a word on its own is its only token |
| Commands.TokensOfWordThen | src/main.rs:28 | a word followed by whitespace or nothing is the first token, and the rest is tokenized on its own |
| Commands.TokensSplit | src/main.rs:28 | splitting at any non-empty whitespace run gives the tokens of the two sides, one after the other |
| Commands.Join | src/main.rs:40 | `join(" ")` starts with the first word, and words joined with spaces neither start nor end with white space |
| Commands.TokensOfJoin | src/main.rs:40 | joining words with single spaces and splitting again gives back the words |
| Commands.AsciiLower | src/main.rs:33 | lower-casing keeps the length and lower-cases each character |
| Commands.LowerIsIdempotentOnWords | src/main.rs:33 | lower-casing twice equals lower-casing once, and a word stays a word |
| Commands.LowerOfLower | src/main.rs:33 | a word without upper-case letters is unchanged by lower-casing |
| Commands.Dispatch | src/main.rs:29-55 | no tokens gives "Empty command"; `add` needs 3+ tokens (key = token 2, value = the rest single-spaced); `get` exactly 2; `list` gives `List`, `exit` or `quit` gives `Exit`, `help` gives `Help`, whatever follows; an unknown word gives "Unknown command: " and the word as typed |
| Commands.Parse | src/main.rs:27-56 | a whitespace-only line is the only empty command; parsed keys are single tokens; parsed values are non-empty, collapse whitespace runs to single spaces and tokenize back to the trailing tokens; the usage and unknown-command errors as in `Dispatch` |
| Commands.ParseRender | src/main.rs:34-50 | rendering a well-formed `add` or `get` command and parsing the line gives the command back |
| Commands.ParseRenderAdd | src/main.rs:34-43 | `add k v` parses back to `Add(k, v)` for a one-token key and a normalized value |
| Commands.ParseRenderGet | src/main.rs:44-50 | `get k` parses back to `Get(k)` |
| Commands.TwoWordsThenTokens | src/main.rs:28 | a line of two words and a rest, single-spaced, tokenizes to the two words then the rest's tokens |
| Commands.AddLineTokens | src/main.rs:28 | the tokens of a rendered `add` line are `add`, the key, then the value's tokens |
| Commands.ParseKeywordAlone | src/main.rs:51-53 | `list`, `exit`, `quit` and `help`, alone and in any case, give their command; `quit` gives `Exit` |
| Commands.ParseCollapsesWhitespace | src/main.rs:28-42 | any non-empty whitespace run parses like a single space |
| Commands.TrailingTokensIgnored | src/main.rs:51-53 | `list`, `exit`, `quit` and `help` ignore trailing tokens |
| Commands.ParseIgnoresCase | src/main.rs:33-54 | the command word is matched in any case; an unknown word is reported as typed |
| Commands.DispatchIgnoresCase | src/main.rs:33-54 | dispatch looks at the command word only through its lower case |
| Commands.ParseU32 | src/main.rs:176 | a block range parses only from non-empty text |
| Commands.DecimalValueOfText | src/main.rs:176 | the decimal text of a number denotes that number |
| Commands.ParseU32OfText | src/main.rs:176 | every `u32` in decimal parses back to itself |
| Commands.Launching | src/main.rs:126-183 | usage is shown exactly for fewer than 1 or more than 2 user arguments; otherwise the app name is argument 1 and the range is present exactly with a second argument; the argument checks fail exactly when that argument is not a valid `u32`, with "block_range must be a valid number" |
| Commands.BlockLimit | src/main.rs:185 | the reported lookback is the given range or 10, and it is the same window discovery uses |

## Left out

- The network and SDK: WebSocket and HTTP clients, the status endpoint's JSON
  beyond the `u32` bound, block-hash lookup, signing, and event decoding. The
  abstract ledger replaces them. Network and SDK failures are not modelled:
  the only ledger errors are a height above `u32::MAX` and a failed inclusion.
- The value `submit_data_to_avail_by_app_id` returns on success (the decoded
  submission as text), which every caller discards, and its decode failures
  at src/avail.rs:90-93. Those return an error after the blob is already on
  the ledger, so a failed `add_record`, `save_metadata` or `new` may leave
  its blob behind. The contracts of Avail.Ledger.Submit,
  Store.DatabaseClient.SaveMetadata and Store.DatabaseClient.AddRecord say a
  failure leaves the ledger unchanged. That holds only for the modelled
  failure, an unsuccessful inclusion.
- `to_ascii().unwrap()` on blob bytes, which panics on non-ASCII data. Blobs
  are modelled as already-decoded JSON values.
- The serde_json text format. The model's codec is structural: objects as maps
  from field name to value, timestamps as an opaque kind of value. Three
  consequences:
  - derived `Deserialize` also accepts a JSON array of the fields in order,
    which the model treats as undecodable;
  - duplicate field names are not modelled;
  - chrono's RFC 3339 text is not modelled.
- `SerializationError`: serializing these structs cannot fail, so no model
  operation produces it. The constructor exists for completeness.
- `Utc::now()` and `Uuid::new_v4()`: the clock reading and the UUID are
  parameters.
- Store.DatabaseClient.Open: the checkpoint's start height comes from the same
  ledger value discovery saw. The second height query is not modelled as a
  separate observation: concurrency and other writers are out of scope, and
  the ledger does not change within one call. In the same way the fetch's own
  height query sees the store's ledger.
- Avail.Ledger.Submit: inclusion is abstracted to "the blob lands alone in the
  next block". Batching of other submissions into the same block is not
  modelled.
- Store.OpenThenDiscover: covers later starts only while the checkpoint lies
  within the lookback window. Once more blocks than the range follow it with
  no newer checkpoint, Store.CheckpointOutOfWindowIsForgotten shows that
  discovery finds nothing. `new` then starts a new database at the current
  height, and every earlier record falls below its start height. Blocks count
  whoever submitted them.
- Store.BelowStartIsInvisible: holds only when the start height is not above
  the latest height. Above it, the clamp at src/db.rs:125-129 makes the range
  0, and the read scans the latest block, which lies below the start
  (Store.StartAboveLatestReadsLatestBlock).
- Store.DatabaseClient.ListRecords: returns the collected map, not the `Vec`
  built by `into_values().collect()`, whose order is unspecified.
- Basics.WrappingIncrement: `record_count += 1` panics in a debug build at
  `u64::MAX`. The model follows the release build, which wraps.
- Commands.Launching: covers only the argument-count check and the parse of
  the block range. In `main` the range is parsed after the app-id lookup
  (src/main.rs:139-172). That lookup can fail first, and for an unknown app
  name it creates the app id on chain even when the range is then rejected.
  The lookup and the creation are network calls and are not modelled.
- Commands.AsciiLower: models ASCII lower-casing instead of Unicode
  `to_lowercase`. Deciding the keywords is unaffected: the only non-ASCII
  characters that lower-case to ASCII letters are the Kelvin sign (to `k`) and
  `İ` (to `i` plus a combining dot), and neither can complete a keyword.
- Commands.ParseRender: covers `add` and `get`. The commands without arguments
  are covered by Commands.ParseKeywordAlone for a word in any case.
- Commands.ParseU32: states only that accepted text is non-empty. Its value
  and the round trip are stated by Commands.ParseU32OfText. Rust's parser is
  modelled as an optional `+` followed by decimal digits whose value fits.
- The app-id resolve/create/re-resolve sequence in `main` (src/main.rs:139-172):
  remote orchestration only.
- The input loop, `handle_command`, printing, logging and `process::exit`.
  These are I/O.

## Findings

| source | as written | input that shows it | evidently intended | confidence | as-written member | corrected member |
|---|---|---|---|---|---|---|
| src/db.rs:136-146 | `get_record` and `list_records` iterate `blobs.iter().rev()` over a list that is already most recent first, so they visit the window oldest first and return the EARLIEST record for a key | on an empty window, `add k v1` then `add k v2`, then `get k`: returns the record with `v1` | the help text (src/main.rs:112) says `add` updates an existing record: the most recent record should win | not executed | Store.SecondAddIsInvisible | Store.LatestAddWins |
| src/db.rs:76-81 | `discover_database` iterates `data.iter().rev()` the same way, so it adopts the OLDEST checkpoint in the lookback window and ignores later ones with higher counts | a window holding the initial checkpoint and then the checkpoint of one `add`: discovery returns `record_count == 0` | the most recent checkpoint, carrying the current count, should be adopted | not executed | Store.DiscoveryTakesEarliestCheckpoint | Store.LatestDiscoveryTakesNewestCheckpoint |

In both rows:
- the client methods `DiscoverDatabase`, `GetRecord` and `ListRecords` model
  the code as written;
- `DiscoverLatestDatabase`, `GetLatestRecord` and `ListLatestRecords` are the
  corrected scans, running the same loops over the fetched list in fetch
  order;
- the lemmas about `LatestDiscovered`, `LatestPointRead` and `LatestListing`
  state what those corrected scans return.
