/** The ledger adapter, reduced to what decides which blobs the store sees and
    in which order. The network, the SDK, block hashes and transaction
    signing are replaced by an abstract ledger: a sequence of blocks indexed by
    height, each block a sequence of submissions tagged with the application
    id they were submitted under. */
module Avail {
  import opened Basics
  import opened Schema

  datatype Submission = Submission(appId: u32, data: Blob)

  /** The submissions of one block, in on-ledger order. */
  type Block = seq<Submission>

  const HEIGHT_TOO_LARGE: string := "Block height too large to fit into u32"
  const TRANSACTION_FAILED: string := "Transaction failed"

  // ---------------------------------------------------------------------
  // Sequence reversal

  function Reverse<T>(s: seq<T>): (r: seq<T>)
    ensures |r| == |s|
  {
    if s == [] then [] else Reverse(s[1..]) + [s[0]]
  }

  lemma {:induction false} ReverseAt<T>(s: seq<T>, k: nat)
    requires k < |s|
    ensures Reverse(s)[k] == s[|s| - 1 - k]
  {
    if k < |s| - 1 {
      ReverseAt(s[1..], k);
    }
  }

  lemma {:induction false} ReverseAppend<T>(a: seq<T>, b: seq<T>)
    ensures Reverse(a + b) == Reverse(b) + Reverse(a)
  {
    if a == [] {
      assert a + b == b;
    } else {
      assert (a + b)[1..] == a[1..] + b;
      ReverseAppend(a[1..], b);
    }
  }

  lemma {:induction false} ReverseReverse<T>(s: seq<T>)
    ensures Reverse(Reverse(s)) == s
  {
    if s != [] {
      ReverseAppend(Reverse(s[1..]), [s[0]]);
      assert Reverse([s[0]]) == [s[0]];
      ReverseReverse(s[1..]);
    }
  }

  // ---------------------------------------------------------------------
  // What one block and one window of blocks hold for an application

  /** The blobs of `block` submitted under `appId`, in on-ledger order: what
      the SDK's `data_submissions` filter yields. */
  function Submissions(block: Block, appId: u32): (r: seq<Blob>)
    ensures |r| <= |block|
  {
    if block == [] then []
    else (if block[0].appId == appId then [block[0].data] else []) + Submissions(block[1..], appId)
  }

  /** Only blobs submitted under `appId` appear, and every one of them does. */
  lemma {:induction false} SubmissionsMembership(block: Block, appId: u32, b: Blob)
    ensures b in Submissions(block, appId) <==> Submission(appId, b) in block
  {
    if block != [] {
      SubmissionsMembership(block[1..], appId, b);
      assert block == [block[0]] + block[1..];
    }
  }

  /** The latest height, rejected (not truncated) when it does not fit a `u32`.
      The chain always holds its genesis block, so there is a latest height. */
  function LatestHeight(blocks: seq<Block>): (r: Result<u32, string>)
    requires |blocks| > 0
    ensures r.Ok? <==> |blocks| - 1 <= U32_MAX
    ensures r.Ok? ==> r.value == |blocks| - 1
    ensures r.Err? ==> r.error == HEIGHT_TOO_LARGE
  {
    if |blocks| - 1 <= U32_MAX then Ok(|blocks| - 1) else Err(HEIGHT_TOO_LARGE)
  }

  /** What the fetch returns for heights `lo..=hi`: one per-block list for each
      height, highest height first, each list reversed. */
  function FetchRange(blocks: seq<Block>, appId: u32, lo: nat, hi: nat): seq<Blob>
    requires lo <= hi + 1 && hi < |blocks|
    decreases hi + 1 - lo
  {
    if lo > hi then []
    else FetchRange(blocks, appId, lo + 1, hi) + Reverse(Submissions(blocks[lo], appId))
  }

  /** The blobs of heights `lo..=hi` submitted under `appId`, in the order they
      were put on the ledger: ascending height, on-ledger order inside a block. */
  function History(blocks: seq<Block>, appId: u32, lo: nat, hi: nat): seq<Blob>
    requires lo <= hi + 1 && hi < |blocks|
    decreases hi + 1 - lo
  {
    if lo > hi then []
    else Submissions(blocks[lo], appId) + History(blocks, appId, lo + 1, hi)
  }

  /** The fetched list is the ledger history of the window, most recent first:
      nothing is dropped, duplicated or reordered otherwise. */
  lemma {:induction false} FetchIsReversedHistory(blocks: seq<Block>, appId: u32, lo: nat, hi: nat)
    requires lo <= hi + 1 && hi < |blocks|
    ensures FetchRange(blocks, appId, lo, hi) == Reverse(History(blocks, appId, lo, hi))
    decreases hi + 1 - lo
  {
    if lo <= hi {
      FetchIsReversedHistory(blocks, appId, lo + 1, hi);
      ReverseAppend(Submissions(blocks[lo], appId), History(blocks, appId, lo + 1, hi));
    }
  }

  /** A blob is in the window's history exactly when it was submitted under
      `appId` at some height of the window. */
  lemma {:induction false} HistoryMembership(blocks: seq<Block>, appId: u32, lo: nat, hi: nat, b: Blob)
    requires lo <= hi + 1 && hi < |blocks|
    ensures b in History(blocks, appId, lo, hi) <==>
            exists h :: lo <= h <= hi && Submission(appId, b) in blocks[h]
    decreases hi + 1 - lo
  {
    if lo <= hi {
      var here, later := Submissions(blocks[lo], appId), History(blocks, appId, lo + 1, hi);
      assert b in History(blocks, appId, lo, hi) <==> b in here || b in later;
      assert b in here <==> Submission(appId, b) in blocks[lo] by {
        SubmissionsMembership(blocks[lo], appId, b);
      }
      assert b in later <==> exists h :: lo + 1 <= h <= hi && Submission(appId, b) in blocks[h] by {
        HistoryMembership(blocks, appId, lo + 1, hi, b);
      }
      if exists h :: lo <= h <= hi && Submission(appId, b) in blocks[h] {
        var h :| lo <= h <= hi && Submission(appId, b) in blocks[h];
        if h > lo {
          assert lo + 1 <= h <= hi && Submission(appId, b) in blocks[h];
        }
      }
    }
  }

  /** Appending blocks after the window's upper end does not change what the
      window held; extending the window appends the new blocks' history. */
  lemma {:induction false} HistoryExtend(blocks: seq<Block>, more: seq<Block>, appId: u32, lo: nat, hi: nat, hi': nat)
    requires lo <= hi + 1 && hi < |blocks| && hi <= hi' < |blocks + more|
    ensures History(blocks + more, appId, lo, hi') ==
            History(blocks, appId, lo, hi) + History(blocks + more, appId, hi + 1, hi')
    decreases hi + 1 - lo
  {
    if lo <= hi {
      HistoryExtend(blocks, more, appId, lo + 1, hi, hi');
      assert (blocks + more)[lo] == blocks[lo];
    }
  }

  // ---------------------------------------------------------------------
  // The two fetch loops

  /** `get_data_by_hash_on_avail` once the block is in hand: its submissions
      for `appId`, pushed in reverse on-ledger order. */
  method BlockData(block: Block, appId: u32) returns (results: seq<Blob>)
    ensures results == Reverse(Submissions(block, appId))
  {
    var blobs := Submissions(block, appId);
    results := [];
    var i := |blobs|;
    while i > 0
      invariant 0 <= i <= |blobs|
      invariant results == Reverse(blobs[i..])
    {
      i := i - 1;
      assert blobs[i..][1..] == blobs[i + 1..];
      results := results + [blobs[i]];
    }
    assert blobs[0..] == blobs;
  }

  /** `get_data_from_avail_by_app_id`: visits heights from the latest down to
      `latest.saturating_sub(blockRange)`, both ends included, and concatenates
      the per-block lists. */
  method FetchByAppId(blocks: seq<Block>, appId: u32, blockRange: u32) returns (r: Result<seq<Blob>, string>)
    requires |blocks| > 0
    ensures LatestHeight(blocks).Err? ==> r == Err(HEIGHT_TOO_LARGE)
    ensures LatestHeight(blocks).Ok? ==>
              var latest := LatestHeight(blocks).value;
              r == Ok(FetchRange(blocks, appId, SaturatingSub(latest, blockRange), latest))
  {
    var height := LatestHeight(blocks);
    if height.Err? {
      return Err(height.error);
    }
    var latest := height.value;
    var start := SaturatingSub(latest, blockRange);
    var allData := [];
    var next: int := latest as int + 1;
    while next > start
      invariant start <= next <= latest as int + 1
      invariant allData == FetchRange(blocks, appId, next, latest)
    {
      next := next - 1;
      var blockBlobs := BlockData(blocks[next], appId);
      allData := allData + blockBlobs;
    }
    return Ok(allData);
  }

  /** The remote ledger. Submitting a blob puts it, alone, into a new block on
      top of the chain; the transaction's reported outcome is a parameter. */
  class Ledger {
    var blocks: seq<Block>

    ghost predicate Valid()
      reads this
    {
      |blocks| > 0
    }

    constructor (genesis: Block)
      ensures Valid() && blocks == [genesis]
    {
      blocks := [genesis];
    }

    /** `submit_data_to_avail_by_app_id`: succeeds only when the inclusion
        report says the transaction succeeded (`is_successful() == Some(true)`). */
    method Submit(appId: u32, data: Blob, status: Option<bool>) returns (r: Result<(), string>)
      requires Valid()
      modifies this
      ensures Valid()
      ensures r.Ok? <==> status == Some(true)
      ensures r.Err? ==> r.error == TRANSACTION_FAILED
      ensures blocks == if r.Ok? then old(blocks) + [[Submission(appId, data)]] else old(blocks)
    {
      if status != Some(true) {
        return Err(TRANSACTION_FAILED);
      }
      blocks := blocks + [[Submission(appId, data)]];
      return Ok(());
    }
  }
}
