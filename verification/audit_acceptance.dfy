/**
 What it means for a snapshot to be accepted, stated over its rows alone, and the proof that
 the verifier's scan accepts exactly those snapshots.
 */
module AuditAcceptance {
  import opened Wrappers
  import opened AuditChain

  /** One of the first `i` epochs has number `n`. */
  predicate ListedIn(inp: Inputs, i: nat, n: int)
    requires i <= |inp.epochs|
  {
    exists j :: 0 <= j < i && inp.epochs[j].number == n
  }

  /** The digest stored at a position, if the position belongs to the first `i` epochs. */
  function DigestIn(inp: Inputs, i: nat, epoch: int, sequence: int): Option<string>
    requires i <= |inp.epochs|
  {
    if ListedIn(inp, i, epoch) && 1 <= sequence <= |EntriesOf(inp.entries, epoch)|
    then Some(EntriesOf(inp.entries, epoch)[sequence - 1].entry.digest)
    else None
  }

  function DigestAt(inp: Inputs, epoch: int, sequence: int): Option<string> {
    DigestIn(inp, |inp.epochs|, epoch, sequence)
  }

  /** The digest an epoch hands to its entry number `k` (or, for the last `k`, to the head). */
  function PreviousAt(e: Epoch, entries: seq<EntryInput>, k: nat): Option<string>
    requires k <= |entries|
  {
    if k == 0 then e.predecessorDigest else Some(entries[k - 1].entry.digest)
  }

  ghost predicate EntryOk(c: Codec, inp: Inputs, sources: map<Source, Event>, e: Epoch, entries: seq<EntryInput>, k: nat)
    requires k < |entries|
  {
    VerifyEntry(c, entries[k].entry, inp.organization, e.chainVersion, e.number, k + 1, PreviousAt(e, entries, k),
                Lookup(sources, entries[k].source)).Success?
  }

  /** Epoch `i` follows on an entry of an earlier epoch of the snapshot, or on the checkpoint. */
  predicate PredecessorOk(inp: Inputs, i: nat)
    requires i < |inp.epochs| && EpochShape(inp.epochs[i]) && inp.epochs[i].number != 1
  {
    var e := inp.epochs[i];
    var d := DigestIn(inp, i, e.predecessorEpoch.value, e.predecessorSequence.value);
    if d.Some? then d == e.predecessorDigest else AnchoredOn(inp.checkpoint, e)
  }

  /** Epoch `i` has no predecessor inside the snapshot. */
  predicate Anchors(inp: Inputs, i: nat)
    requires i < |inp.epochs|
  {
    var e := inp.epochs[i];
    EpochShape(e) && e.number != 1
    && DigestIn(inp, i, e.predecessorEpoch.value, e.predecessorSequence.value).None?
  }

  predicate HeaderOk(inp: Inputs, i: nat)
    requires i < |inp.epochs|
  {
    var e := inp.epochs[i];
    && e.chainVersion == inp.head.chainVersion && 1 <= e.number <= inp.head.chainEpoch
    && (forall j :: 0 <= j < i ==> inp.epochs[j].number < e.number)
    && EpochShape(e)
    && (e.number != 1 ==> PredecessorOk(inp, i))
  }

  ghost predicate EntriesOk(c: Codec, inp: Inputs, sources: map<Source, Event>, e: Epoch) {
    var entries := EntriesOf(inp.entries, e.number);
    forall k :: 0 <= k < |entries| ==> EntryOk(c, inp, sources, e, entries, k)
  }

  predicate HeadOk(inp: Inputs, e: Epoch) {
    var entries := EntriesOf(inp.entries, e.number);
    e.number == inp.head.chainEpoch ==>
      inp.head.sequence == |entries| && inp.head.digest == PreviousAt(e, entries, |entries|)
  }

  ghost predicate EpochOk(c: Codec, inp: Inputs, sources: map<Source, Event>, i: nat)
    requires i < |inp.epochs|
  {
    HeaderOk(inp, i) && EntriesOk(c, inp, sources, inp.epochs[i]) && HeadOk(inp, inp.epochs[i])
  }

  /** An accepted snapshot: every epoch is in order and linked, the last one carries the head,
      no entry belongs to an unlisted epoch, and the checkpoint is met. */
  ghost predicate Accepted(c: Codec, inp: Inputs) {
    && HeadShape(inp.head)
    && SourceMap(inp.sources).Some?
    && |inp.epochs| > 0 && inp.epochs[|inp.epochs| - 1].number == inp.head.chainEpoch
    && (forall i :: 0 <= i < |inp.epochs| ==> EpochOk(c, inp, SourceMap(inp.sources).value, i))
    && (forall i :: 0 <= i < |inp.entries| ==> ListedIn(inp, |inp.epochs|, inp.entries[i].chainEpoch))
    && (inp.checkpoint.Some? ==> CheckpointOk(inp, inp.checkpoint.value))
  }

  /** The checkpoint's position and digest are in the snapshot, or an epoch is anchored on it. */
  predicate CheckpointOk(inp: Inputs, cp: Checkpoint) {
    && cp.chainVersion == inp.head.chainVersion
    && (DigestAt(inp, cp.chainEpoch, cp.sequence) == Some(cp.digest)
        || exists i :: 0 <= i < |inp.epochs| && Anchors(inp, i))
  }

  // ---------------------------------------------------------------- the scan is exact

  lemma {:induction false} ScanEntriesExact(c: Codec, inp: Inputs, sources: map<Source, Event>, e: Epoch,
                                            entries: seq<EntryInput>, k: nat, verified: map<(int, int), string>)
    requires k <= |entries|
    ensures var r := ScanEntries(c, inp, sources, e, entries[k..], k + 1, PreviousAt(e, entries, k), verified);
      && (r.Success? <==> forall m :: k <= m < |entries| ==> EntryOk(c, inp, sources, e, entries, m))
      && (r.Success? ==>
            && r.value.1 == |entries| + 1 && r.value.2 == PreviousAt(e, entries, |entries|)
            && forall key: (int, int) :: Lookup(r.value.0, key) ==
                 if key.0 == e.number && k + 1 <= key.1 <= |entries| then Some(entries[key.1 - 1].entry.digest)
                 else Lookup(verified, key))
    decreases |entries| - k
  {
    if k < |entries| {
      assert entries[k..][1..] == entries[k + 1..];
      var r := VerifyEntry(c, entries[k].entry, inp.organization, e.chainVersion, e.number, k + 1,
                           PreviousAt(e, entries, k), Lookup(sources, entries[k].source));
      if r.Success? {
        ScanEntriesExact(c, inp, sources, e, entries, k + 1, verified[(e.number, k + 1) := r.value]);
      } else {
        assert !EntryOk(c, inp, sources, e, entries, k);
      }
    }
  }

  /** The scan state after the first `i` epochs. */
  ghost predicate ScanIs(inp: Inputs, i: nat, scan: Scan)
    requires i <= |inp.epochs|
  {
    && (forall key: (int, int) :: Lookup(scan.verified, key) == DigestIn(inp, i, key.0, key.1))
    && scan.active == ListedIn(inp, i, inp.head.chainEpoch)
    && scan.matched == (exists j :: 0 <= j < i && Anchors(inp, j))
    && scan.previous == (if i == 0 then 0 else inp.epochs[i - 1].number)
    && (forall j :: 0 <= j < i ==> inp.epochs[j].number <= scan.previous)
  }

  lemma HeaderExact(inp: Inputs, i: nat, scan: Scan)
    requires i < |inp.epochs| && ScanIs(inp, i, scan)
    ensures ScanEpochHeader(inp, inp.epochs[i], scan).Success? <==> HeaderOk(inp, i)
    ensures HeaderOk(inp, i) ==> ScanEpochHeader(inp, inp.epochs[i], scan).value == Anchors(inp, i)
  {
    var e := inp.epochs[i];
    assert i > 0 ==> (forall j :: 0 <= j < i ==> inp.epochs[j].number < e.number) ==> inp.epochs[i - 1].number < e.number;
    if EpochShape(e) && e.number != 1 {
      var key := (e.predecessorEpoch.value, e.predecessorSequence.value);
      assert Lookup(scan.verified, key) == DigestIn(inp, i, key.0, key.1);
    }
  }

  lemma ScanEpochExact(c: Codec, inp: Inputs, sources: map<Source, Event>, i: nat, scan: Scan)
    requires i < |inp.epochs| && ScanIs(inp, i, scan)
    ensures var r := ScanEpoch(c, inp, sources, inp.epochs[i], scan);
      && (r.Success? <==> EpochOk(c, inp, sources, i))
      && (r.Success? ==> ScanIs(inp, i + 1, r.value))
  {
    HeaderExact(inp, i, scan);
    var e := inp.epochs[i];
    var entries := EntriesOf(inp.entries, e.number);
    ScanEntriesExact(c, inp, sources, e, entries, 0, scan.verified);
    assert entries[0..] == entries;
    var r := ScanEpoch(c, inp, sources, e, scan);
    if r.Success? {
      ScanStep(inp, i, scan, r.value);
    }
  }

  lemma ScanStep(inp: Inputs, i: nat, scan: Scan, next: Scan)
    requires i < |inp.epochs| && ScanIs(inp, i, scan) && HeaderOk(inp, i)
    requires var e := inp.epochs[i]; var entries := EntriesOf(inp.entries, e.number);
      forall key: (int, int) :: Lookup(next.verified, key) ==
        if key.0 == e.number && 1 <= key.1 <= |entries| then Some(entries[key.1 - 1].entry.digest)
        else Lookup(scan.verified, key)
    requires next.active == (scan.active || inp.epochs[i].number == inp.head.chainEpoch)
    requires next.matched == (scan.matched || Anchors(inp, i)) && next.previous == inp.epochs[i].number
    ensures ScanIs(inp, i + 1, next)
  {
    forall n ensures ListedIn(inp, i + 1, n) <==> ListedIn(inp, i, n) || n == inp.epochs[i].number {
      assert n == inp.epochs[i].number ==> inp.epochs[i].number == n && ListedIn(inp, i + 1, n);
    }
    assert !ListedIn(inp, i, inp.epochs[i].number);
  }

  ghost predicate EpochsOkFrom(c: Codec, inp: Inputs, sources: map<Source, Event>, i: nat)
    requires i <= |inp.epochs|
    decreases |inp.epochs| - i
  {
    i < |inp.epochs| ==> EpochOk(c, inp, sources, i) && EpochsOkFrom(c, inp, sources, i + 1)
  }

  lemma {:induction false} EpochsOkEach(c: Codec, inp: Inputs, sources: map<Source, Event>, i: nat)
    requires i <= |inp.epochs|
    ensures EpochsOkFrom(c, inp, sources, i) <==> forall j :: i <= j < |inp.epochs| ==> EpochOk(c, inp, sources, j)
    decreases |inp.epochs| - i
  {
    if i < |inp.epochs| { EpochsOkEach(c, inp, sources, i + 1); }
  }

  lemma {:induction false} ScanEpochsExact(c: Codec, inp: Inputs, sources: map<Source, Event>, i: nat, scan: Scan)
    requires i <= |inp.epochs| && ScanIs(inp, i, scan)
    ensures var r := ScanEpochs(c, inp, sources, inp.epochs[i..], scan);
      && (r.Success? <==> EpochsOkFrom(c, inp, sources, i))
      && (r.Success? ==> ScanIs(inp, |inp.epochs|, r.value))
    decreases |inp.epochs| - i
  {
    if i < |inp.epochs| {
      assert inp.epochs[i..][1..] == inp.epochs[i + 1..];
      ScanEpochExact(c, inp, sources, i, scan);
      var r := ScanEpoch(c, inp, sources, inp.epochs[i], scan);
      if r.Success? { ScanEpochsExact(c, inp, sources, i + 1, r.value); }
    }
  }

  lemma EntriesOfEpoch(entries: seq<EntryInput>, n: int)
    ensures EntriesOf(entries, n) != [] <==> exists i :: 0 <= i < |entries| && entries[i].chainEpoch == n
  {
    if entries != [] {
      EntriesOfEpoch(entries[..|entries| - 1], n);
    }
  }

  /** A scanned epoch has a verified position exactly when it has an entry. */
  lemma UnverifiedExact(inp: Inputs, scan: Scan, i: nat)
    requires ScanIs(inp, |inp.epochs|, scan) && i < |inp.entries|
    ensures Unverified(scan.verified, inp.entries[i].chainEpoch) <==> !ListedIn(inp, |inp.epochs|, inp.entries[i].chainEpoch)
  {
    var n := inp.entries[i].chainEpoch;
    EntriesOfEpoch(inp.entries, n);
    assert Lookup(scan.verified, (n, 1)) == DigestIn(inp, |inp.epochs|, n, 1);
    forall key | key in scan.verified && !ListedIn(inp, |inp.epochs|, n) ensures key.0 != n {
      assert Lookup(scan.verified, key) == DigestIn(inp, |inp.epochs|, key.0, key.1);
    }
  }

  lemma FinishExact(inp: Inputs, scan: Scan)
    requires |inp.epochs| > 0 && ScanIs(inp, |inp.epochs|, scan)
    requires inp.checkpoint.Some? ==> inp.checkpoint.value.chainVersion == inp.head.chainVersion
    ensures Finish(inp, scan).Success? <==>
      && inp.epochs[|inp.epochs| - 1].number == inp.head.chainEpoch
      && (forall i :: 0 <= i < |inp.entries| ==> ListedIn(inp, |inp.epochs|, inp.entries[i].chainEpoch))
      && (inp.checkpoint.Some? ==> CheckpointOk(inp, inp.checkpoint.value))
  {
    forall i | 0 <= i < |inp.entries|
      ensures Unverified(scan.verified, inp.entries[i].chainEpoch) <==> !ListedIn(inp, |inp.epochs|, inp.entries[i].chainEpoch)
    {
      UnverifiedExact(inp, scan, i);
    }
    if inp.checkpoint.Some? {
      var cp := inp.checkpoint.value;
      assert Lookup(scan.verified, (cp.chainEpoch, cp.sequence)) == DigestIn(inp, |inp.epochs|, cp.chainEpoch, cp.sequence);
    }
  }

  /** The verifier accepts exactly the accepted snapshots, and then returns their own head. */
  lemma VerifyExact(c: Codec, inp: Inputs)
    ensures Verify(c, inp).Success? <==> Accepted(c, inp)
    ensures Verify(c, inp).Success? ==> Verify(c, inp).value == inp.head
  {
    var start := Scan(map[], false, false, 0);
    if HeadShape(inp.head) && SourceMap(inp.sources).Some? {
      var sources := SourceMap(inp.sources).value;
      assert inp.epochs[0..] == inp.epochs;
      assert ScanIs(inp, 0, start);
      ScanEpochsExact(c, inp, sources, 0, start);
      EpochsOkEach(c, inp, sources, 0);
      var scan := ScanEpochs(c, inp, sources, inp.epochs, start);
      if scan.Success? && |inp.epochs| > 0
         && (inp.checkpoint.Some? ==> inp.checkpoint.value.chainVersion == inp.head.chainVersion) {
        FinishExact(inp, scan.value);
      }
    }
  }
}
