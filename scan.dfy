/** What the store's three scan loops compute, as functions over the list of
    blobs in the order the store visits them, and how the answers of the point
    read and of the enumeration relate.

    The store visits the fetched list back to front. Because the fetch itself
    is most recent first, the store's visit order is the ledger's own order,
    oldest first, and every "first found wins" rule below therefore picks the
    OLDEST candidate. The `Latest*` functions at the end are the most-recent-
    first reading the store was meant to have. */
module Scan {
  import opened Basics
  import opened Schema
  import opened Avail

  /** The record a blob contributes to a read. A blob that reads as a
      checkpoint is skipped before any attempt to read it as a record. */
  function VisibleRecord(b: Blob): (r: Option<Record>)
    ensures r.Some? ==> DecodeMetadata(b).None? && r == DecodeRecord(b)
    ensures DecodeMetadata(b).None? ==> r == DecodeRecord(b)
  {
    if DecodeMetadata(b).Some? then None else DecodeRecord(b)
  }

  predicate Matches(b: Blob, key: string) {
    VisibleRecord(b).Some? && VisibleRecord(b).value.key == key
  }

  /** An encoded record is visible as itself; an encoded checkpoint is never
      visible as a record. */
  lemma EncodedBlobsRead(r: Record, m: DatabaseMetadata, key: string)
    ensures VisibleRecord(EncodeRecord(r)) == Some(r) && Matches(EncodeRecord(r), r.key)
    ensures !Matches(EncodeMetadata(m), key)
  {
  }

  /** Discovery: the first blob, in visit order, that reads as a checkpoint. */
  function FirstMetadata(s: seq<Blob>): (r: Option<DatabaseMetadata>)
    ensures r.None? <==> forall i :: 0 <= i < |s| ==> DecodeMetadata(s[i]).None?
  {
    if s == [] then None
    else if DecodeMetadata(s[0]).Some? then DecodeMetadata(s[0])
    else
      var rest := FirstMetadata(s[1..]);
      assert forall i :: 0 <= i < |s| - 1 ==> s[1..][i] == s[i + 1];
      rest
  }

  /** The discovery loop's exit rule: a checkpoint with none before it is the
      answer. */
  lemma {:induction false} FirstMetadataIsEarliest(s: seq<Blob>, j: nat)
    requires j < |s| && DecodeMetadata(s[j]).Some?
    requires forall i :: 0 <= i < j ==> DecodeMetadata(s[i]).None?
    ensures FirstMetadata(s) == DecodeMetadata(s[j])
  {
    if j > 0 {
      assert DecodeMetadata(s[0]).None?;
      FirstMetadataIsEarliest(s[1..], j - 1);
    }
  }

  /** Point read: the first record, in visit order, whose key is `key`. */
  function FirstMatch(s: seq<Blob>, key: string): (r: Option<Record>)
    ensures r.Some? ==> r.value.key == key
    ensures r.None? <==> forall i :: 0 <= i < |s| ==> !Matches(s[i], key)
  {
    if s == [] then None
    else if Matches(s[0], key) then VisibleRecord(s[0])
    else
      var rest := FirstMatch(s[1..], key);
      assert forall i :: 0 <= i < |s| - 1 ==> s[1..][i] == s[i + 1];
      rest
  }

  /** A found checkpoint is held by some blob with no checkpoint before it. */
  lemma {:induction false} FirstMetadataIsFirst(s: seq<Blob>)
    ensures FirstMetadata(s).Some? ==>
              exists i :: 0 <= i < |s| && DecodeMetadata(s[i]) == FirstMetadata(s) &&
                          forall j :: 0 <= j < i ==> DecodeMetadata(s[j]).None?
  {
    if s != [] && DecodeMetadata(s[0]).None? {
      var t := s[1..];
      FirstMetadataIsFirst(t);
      if FirstMetadata(s).Some? {
        var i :| 0 <= i < |t| && DecodeMetadata(t[i]) == FirstMetadata(t) &&
                 forall j :: 0 <= j < i ==> DecodeMetadata(t[j]).None?;
        assert s[i + 1] == t[i];
        forall j | 0 <= j < i + 1
          ensures DecodeMetadata(s[j]).None?
        {
          if j > 0 {
            assert s[j] == t[j - 1];
          }
        }
      }
    } else if s != [] {
      assert DecodeMetadata(s[0]) == FirstMetadata(s);
    }
  }

  /** A found record is the visible record of a matching blob with no match
      before it. */
  lemma {:induction false} FirstMatchIsFirst(s: seq<Blob>, key: string)
    ensures FirstMatch(s, key).Some? ==>
              exists i :: 0 <= i < |s| && Matches(s[i], key) && VisibleRecord(s[i]) == FirstMatch(s, key) &&
                          forall j :: 0 <= j < i ==> !Matches(s[j], key)
  {
    if s != [] && !Matches(s[0], key) {
      var t := s[1..];
      FirstMatchIsFirst(t, key);
      if FirstMatch(s, key).Some? {
        var i :| 0 <= i < |t| && Matches(t[i], key) && VisibleRecord(t[i]) == FirstMatch(t, key) &&
                 forall j :: 0 <= j < i ==> !Matches(t[j], key);
        assert s[i + 1] == t[i];
        forall j | 0 <= j < i + 1
          ensures !Matches(s[j], key)
        {
          if j > 0 {
            assert s[j] == t[j - 1];
          }
        }
      }
    } else if s != [] {
      assert VisibleRecord(s[0]) == FirstMatch(s, key);
    }
  }

  /** The loop's exit rule: a match with none before it is the answer. */
  lemma {:induction false} FirstMatchIsEarliest(s: seq<Blob>, key: string, j: nat)
    requires j < |s| && Matches(s[j], key)
    requires forall i :: 0 <= i < j ==> !Matches(s[i], key)
    ensures FirstMatch(s, key) == VisibleRecord(s[j])
  {
    if j > 0 {
      assert !Matches(s[0], key);
      FirstMatchIsEarliest(s[1..], key, j - 1);
    }
  }

  /** `map.entry(record.key).or_insert(record)` for one visited blob. */
  function Insert(m: map<string, Record>, b: Blob): map<string, Record> {
    match VisibleRecord(b)
    case Some(r) => if r.key in m then m else m[r.key := r]
    case None => m
  }

  /** Enumeration: one record per key, the first one visited for it. Every
      record is filed under its own key, so listed keys are distinct. */
  function FirstSeen(s: seq<Blob>): (m: map<string, Record>)
    ensures forall k :: k in m ==> m[k].key == k
  {
    if s == [] then map[] else Insert(FirstSeen(s[..|s| - 1]), s[|s| - 1])
  }

  /** `Insert` spelled the way the enumeration loop tests the blob: skip a
      checkpoint, then keep a record whose key is not yet present. */
  lemma InsertSkipsCheckpoints(m: map<string, Record>, b: Blob)
    ensures Insert(m, b) ==
            if DecodeMetadata(b).None? && DecodeRecord(b).Some? && DecodeRecord(b).value.key !in m
            then m[DecodeRecord(b).value.key := DecodeRecord(b).value]
            else m
  {
  }

  /** One step of the enumeration loop: the record map after visiting
      `s[j]` is the map before with that blob inserted. */
  lemma FirstSeenStep(s: seq<Blob>, j: nat)
    requires j < |s|
    ensures FirstSeen(s[..j + 1]) == Insert(FirstSeen(s[..j]), s[j])
  {
    assert s[..j + 1][..j] == s[..j];
  }

  /** Visiting one more blob changes the point read only when nothing had
      matched yet and the new blob matches. */
  lemma {:induction false} FirstMatchSnoc(s: seq<Blob>, b: Blob, key: string)
    ensures FirstMatch(s + [b], key) ==
            if FirstMatch(s, key).Some? then FirstMatch(s, key)
            else if Matches(b, key) then VisibleRecord(b)
            else None
  {
    if s != [] {
      assert (s + [b])[1..] == s[1..] + [b];
      FirstMatchSnoc(s[1..], b, key);
    }
  }

  /** The enumeration holds a key exactly when the point read finds it, and
      then holds the very record the point read returns. */
  lemma {:induction false} ListAgreesWithGet(s: seq<Blob>, key: string)
    ensures key in FirstSeen(s) <==> FirstMatch(s, key).Some?
    ensures key in FirstSeen(s) ==> FirstMatch(s, key) == Some(FirstSeen(s)[key])
  {
    if s != [] {
      var p, b := s[..|s| - 1], s[|s| - 1];
      assert s == p + [b];
      ListAgreesWithGet(p, key);
      FirstMatchSnoc(p, b, key);
    }
  }

  /** `get_record(k) == Some(r)` exactly when `r` is among the listed records
      with key `k`; keys of listed records are pairwise distinct. */
  lemma GetIffListed(s: seq<Blob>, key: string, r: Record)
    ensures FirstMatch(s, key) == Some(r) <==> (r in FirstSeen(s).Values && r.key == key)
  {
    ListAgreesWithGet(s, key);
    if r in FirstSeen(s).Values && r.key == key {
      var k :| k in FirstSeen(s) && FirstSeen(s)[k] == r;
      ListAgreesWithGet(s, k);
    }
  }

  /** Every key that some visible record carries is listed, and no other. */
  lemma ListCoversEveryKey(s: seq<Blob>, key: string)
    ensures key in FirstSeen(s) <==> exists i :: 0 <= i < |s| && Matches(s[i], key)
  {
    ListAgreesWithGet(s, key);
  }

  /** Once a prefix holds a match for the key, whatever follows does not
      change the point read. */
  lemma {:induction false} FirstMatchOfPrefix(s: seq<Blob>, t: seq<Blob>, key: string)
    requires FirstMatch(s, key).Some?
    ensures FirstMatch(s + t, key) == FirstMatch(s, key)
  {
    assert (s + t)[0] == s[0];
    if !Matches(s[0], key) {
      assert (s + t)[1..] == s[1..] + t;
      FirstMatchOfPrefix(s[1..], t, key);
    }
  }

  /** A record followed by a checkpoint, as the write path appends them, makes
      the record the answer for its key when the list held none before. */
  lemma RecordThenCheckpoint(before: seq<Blob>, r: Record, m: DatabaseMetadata)
    requires FirstMatch(before, r.key) == None
    ensures FirstMatch(before + [EncodeRecord(r), EncodeMetadata(m)], r.key) == Some(r)
  {
    EncodedBlobsRead(r, m, r.key);
    FirstMatchSnoc(before, EncodeRecord(r), r.key);
    assert before + [EncodeRecord(r), EncodeMetadata(m)] == before + [EncodeRecord(r)] + [EncodeMetadata(m)];
    FirstMatchOfPrefix(before + [EncodeRecord(r)], [EncodeMetadata(m)], r.key);
  }

  /** As the store is written: once the visited list holds a record for `key`,
      blobs visited after it never change what the point read or the
      enumeration returns for `key`. */
  lemma EarlierRecordWins(s: seq<Blob>, t: seq<Blob>, key: string)
    requires FirstMatch(s, key).Some?
    ensures FirstMatch(s + t, key) == FirstMatch(s, key)
    ensures key in FirstSeen(s + t) && FirstSeen(s + t)[key] == FirstMatch(s, key).value
  {
    FirstMatchOfPrefix(s, t, key);
    ListAgreesWithGet(s + t, key);
  }

  // ---------------------------------------------------------------------
  // The most-recent-first reading (last write wins)

  /** Point read over a history given in ledger order, scanning it most
      recent first: what the store does if it visits the fetched list in the
      order it is fetched. */
  function LatestRecord(history: seq<Blob>, key: string): Option<Record> {
    FirstMatch(Reverse(history), key)
  }

  function LatestMetadata(history: seq<Blob>): Option<DatabaseMetadata> {
    FirstMetadata(Reverse(history))
  }

  function LatestSeen(history: seq<Blob>): map<string, Record> {
    FirstSeen(Reverse(history))
  }

  lemma ReverseAtAll<T>(s: seq<T>)
    ensures forall k :: 0 <= k < |s| ==> Reverse(s)[k] == s[|s| - 1 - k]
  {
    forall k | 0 <= k < |s| {
      ReverseAt(s, k);
    }
  }

  /** The most-recent-first point read returns the LAST matching record of
      the history, and nothing exactly when there is none. */
  lemma LatestRecordIsLast(history: seq<Blob>, key: string)
    ensures LatestRecord(history, key).None? <==>
            forall i :: 0 <= i < |history| ==> !Matches(history[i], key)
    ensures LatestRecord(history, key).Some? ==>
              exists i :: 0 <= i < |history| && Matches(history[i], key) &&
                          VisibleRecord(history[i]) == LatestRecord(history, key) &&
                          forall j :: i < j < |history| ==> !Matches(history[j], key)
  {
    var rev := Reverse(history);
    var n := |history|;
    assert forall k :: 0 <= k < n ==> rev[k] == history[n - 1 - k] by {
      ReverseAtAll(history);
    }
    if LatestRecord(history, key).None? {
      forall i | 0 <= i < n ensures !Matches(history[i], key) {
        assert rev[n - 1 - i] == history[i];
      }
    } else {
      FirstMatchIsFirst(rev, key);
      var i' :| 0 <= i' < n && Matches(rev[i'], key) && VisibleRecord(rev[i']) == LatestRecord(history, key) &&
                forall j :: 0 <= j < i' ==> !Matches(rev[j], key);
      var i := n - 1 - i';
      assert history[i] == rev[i'];
      forall j | i < j < n ensures !Matches(history[j], key) {
        assert history[j] == rev[n - 1 - j];
      }
    }
  }

  /** The most-recent-first discovery adopts the LAST checkpoint of the
      history. */
  lemma LatestMetadataIsLast(history: seq<Blob>)
    ensures LatestMetadata(history).None? <==>
            forall i :: 0 <= i < |history| ==> DecodeMetadata(history[i]).None?
    ensures LatestMetadata(history).Some? ==>
              exists i :: 0 <= i < |history| && DecodeMetadata(history[i]) == LatestMetadata(history) &&
                          forall j :: i < j < |history| ==> DecodeMetadata(history[j]).None?
  {
    var rev := Reverse(history);
    var n := |history|;
    assert forall k :: 0 <= k < n ==> rev[k] == history[n - 1 - k] by {
      ReverseAtAll(history);
    }
    if LatestMetadata(history).None? {
      forall i | 0 <= i < n ensures DecodeMetadata(history[i]).None? {
        assert rev[n - 1 - i] == history[i];
      }
    } else {
      FirstMetadataIsFirst(rev);
      var i' :| 0 <= i' < n && DecodeMetadata(rev[i']) == LatestMetadata(history) &&
                forall j :: 0 <= j < i' ==> DecodeMetadata(rev[j]).None?;
      var i := n - 1 - i';
      assert history[i] == rev[i'];
      forall j | i < j < n ensures DecodeMetadata(history[j]).None? {
        assert history[j] == rev[n - 1 - j];
      }
    }
  }

  /** Last write wins: a record for `key` appended later hides every earlier
      one, for the point read and for the enumeration alike. */
  lemma LaterRecordWins(s: seq<Blob>, t: seq<Blob>, key: string)
    requires exists i :: 0 <= i < |t| && Matches(t[i], key)
    ensures LatestRecord(t, key).Some?
    ensures LatestRecord(s + t, key) == LatestRecord(t, key)
    ensures key in LatestSeen(s + t) && LatestSeen(s + t)[key] == LatestRecord(t, key).value
  {
    ReverseAppend(s, t);
    LatestRecordIsLast(t, key);
    EarlierRecordWins(Reverse(t), Reverse(s), key);
  }

  /** Right after the write path's two appends, the most-recent-first reads
      return the record just written. */
  lemma LatestAfterRecordThenCheckpoint(before: seq<Blob>, r: Record, m: DatabaseMetadata)
    ensures LatestRecord(before + [EncodeRecord(r), EncodeMetadata(m)], r.key) == Some(r)
    ensures var listed := LatestSeen(before + [EncodeRecord(r), EncodeMetadata(m)]);
            r.key in listed && listed[r.key] == r
  {
    var tail := [EncodeRecord(r), EncodeMetadata(m)];
    EncodedBlobsRead(r, m, r.key);
    assert Matches(tail[0], r.key);
    LaterRecordWins(before, tail, r.key);
    LatestRecordIsLast(tail, r.key);
  }

  /** As the store is written, discovery takes the first checkpoint it
      visits, whatever follows. */
  lemma OldestCheckpointFirst(before: seq<Blob>, m: DatabaseMetadata, after: seq<Blob>)
    requires forall i :: 0 <= i < |before| ==> DecodeMetadata(before[i]).None?
    ensures FirstMetadata(before + [EncodeMetadata(m)] + after) == Some(m)
  {
    var history := before + [EncodeMetadata(m)] + after;
    assert history[|before|] == EncodeMetadata(m);
    assert forall i :: 0 <= i < |before| ==> history[i] == before[i];
    FirstMetadataIsEarliest(history, |before|);
  }

  /** The most-recent-first discovery takes the checkpoint no other
      checkpoint follows, whatever precedes it. */
  lemma NewestCheckpointLast(before: seq<Blob>, m: DatabaseMetadata, after: seq<Blob>)
    requires forall i :: 0 <= i < |after| ==> DecodeMetadata(after[i]).None?
    ensures LatestMetadata(before + [EncodeMetadata(m)] + after) == Some(m)
  {
    var history := before + [EncodeMetadata(m)] + after;
    var k := |before|;
    assert history[k] == EncodeMetadata(m);
    assert forall i :: k < i < |history| ==> history[i] == after[i - k - 1];
    LatestMetadataIsLast(history);
  }
}
