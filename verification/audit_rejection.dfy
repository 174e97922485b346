/**
 What the reason for a rejection says: which part of a snapshot is wrong, and that all that was
 looked at before is right.
 */
module AuditRejection {
  import opened Wrappers
  import opened AuditChain
  import opened AuditAcceptance

  /** A digest is 64 lower-case hexadecimal digits. */
  lemma DigestExact(d: string)
    ensures IsDigest(d) <==> |d| == 64 && forall i :: 0 <= i < |d| ==> 48 <= d[i] as int <= 57 || 97 <= d[i] as int <= 102
  {
  }

  predicate AtPosition(e: Entry, organization: string, chainVersion: int, chainEpoch: int, sequence: int) {
    (e.body.organization, e.body.chainVersion, e.body.chainEpoch, e.body.sequence) == (organization, chainVersion, chainEpoch, sequence)
  }

  /** An entry is refused for the first of these that it fails: its own shape, its position, its
      predecessor, that its source event is there, that it is the same, and its digest. */
  lemma EntryReasons(c: Codec, e: Entry, organization: string, chainVersion: int, chainEpoch: int,
                     sequence: int, previous: Option<string>, source: Option<Event>)
    ensures var r := VerifyEntry(c, e, organization, chainVersion, chainEpoch, sequence, previous, source);
      var placed := EntryShape(c, e) && AtPosition(e, organization, chainVersion, chainEpoch, sequence);
      var linked := placed && e.body.previous == previous;
      && (r == Failure(EntryMalformed) <==> !EntryShape(c, e))
      && (r == Failure(SequenceInvalid) <==> EntryShape(c, e) && !placed)
      && (r == Failure(PredecessorInvalid) <==> placed && e.body.previous != previous)
      && (r == Failure(SourceMissing) <==> linked && source == None)
      && (r == Failure(SourceMismatch) <==> linked && source.Some? && source != Some(e.body.event))
      && (r == Failure(DigestInvalid) <==> linked && source == Some(e.body.event) && e.digest != c.hash(e.body))
  {
    assert EntryShape(c, e) && AtPosition(e, organization, chainVersion, chainEpoch, sequence) && e.body.previous == previous ==>
      e.body == Body(organization, chainVersion, chainEpoch, sequence, previous, e.body.source, e.body.event);
  }

  /** The epochs of an accepted snapshot: the first is the adoption and has nothing before it; each
      other one restores or migrates an entry of an earlier number. */
  lemma AcceptedEpochs(c: Codec, inp: Inputs, i: nat)
    requires Accepted(c, inp) && i < |inp.epochs|
    ensures var e := inp.epochs[i];
      && e.chainVersion == 1 && e.number >= 1
      && if e.number == 1
         then e.reason == InitialAdoption && (e.predecessorEpoch, e.predecessorSequence, e.predecessorDigest) == (None, None, None)
         else (e.reason == Restore || e.reason == Migration)
              && e.predecessorEpoch.Some? && e.predecessorSequence.Some? && e.predecessorDigest.Some?
              && 1 <= e.predecessorEpoch.value < e.number && e.predecessorSequence.value >= 1 && |e.predecessorDigest.value| == 64
  {
    assert EpochOk(c, inp, SourceMap(inp.sources).value, i);
  }

  // ---------------------------------------------------------------- the checkpoint

  /** The rows are those of an accepted snapshot, whatever the checkpoint holds. */
  ghost predicate RowsOk(c: Codec, inp: Inputs) {
    && |inp.epochs| > 0 && inp.epochs[|inp.epochs| - 1].number == inp.head.chainEpoch
    && SourceMap(inp.sources).Some? && (forall i :: 0 <= i < |inp.epochs| ==> EpochOk(c, inp, SourceMap(inp.sources).value, i))
    && (forall i :: 0 <= i < |inp.entries| ==> ListedIn(inp, |inp.epochs|, inp.entries[i].chainEpoch))
  }

  predicate OfTheRows(error: Error) {
    !error.HeadMalformed? && !error.CheckpointMismatch? && !error.SourceMalformed?
  }

  lemma {:induction false} EntryErrors(c: Codec, inp: Inputs, sources: map<Source, Event>, e: Epoch, entries: seq<EntryInput>,
                                       sequence: int, previous: Option<string>, verified: map<(int, int), string>)
    ensures var r := ScanEntries(c, inp, sources, e, entries, sequence, previous, verified);
      r.Failure? ==> OfTheRows(r.error)
    decreases |entries|
  {
    if entries != [] {
      var r := VerifyEntry(c, entries[0].entry, inp.organization, e.chainVersion, e.number, sequence, previous,
                           Lookup(sources, entries[0].source));
      if r.Success? {
        EntryErrors(c, inp, sources, e, entries[1..], sequence + 1, Some(r.value), verified[(e.number, sequence) := r.value]);
      }
    }
  }

  lemma {:induction false} EpochErrors(c: Codec, inp: Inputs, sources: map<Source, Event>, epochs: seq<Epoch>, scan: Scan)
    ensures ScanEpochs(c, inp, sources, epochs, scan).Failure? ==> OfTheRows(ScanEpochs(c, inp, sources, epochs, scan).error)
    decreases |epochs|
  {
    if epochs != [] {
      EntryErrors(c, inp, sources, epochs[0], EntriesOf(inp.entries, epochs[0].number), 1, epochs[0].predecessorDigest, scan.verified);
      var r := ScanEpoch(c, inp, sources, epochs[0], scan);
      if r.Success? { EpochErrors(c, inp, sources, epochs[1..], r.value); }
    }
  }

  lemma NoCheckpoint(inp: Inputs, plain: Inputs, scan: Scan)
    requires plain == inp.(checkpoint := None) && ScanIs(inp, |inp.epochs|, scan)
    ensures ScanIs(plain, |plain.epochs|, scan)
  {
    forall i: nat, epoch: int, sequence: int | i <= |inp.epochs|
      ensures DigestIn(plain, i, epoch, sequence) == DigestIn(inp, i, epoch, sequence)
    {
      assert ListedIn(plain, i, epoch) == ListedIn(inp, i, epoch);
    }
    assert ListedIn(plain, |inp.epochs|, inp.head.chainEpoch) == ListedIn(inp, |inp.epochs|, inp.head.chainEpoch);
    assert forall j :: 0 <= j < |inp.epochs| ==> Anchors(plain, j) == Anchors(inp, j);
  }

  lemma FinishReasons(inp: Inputs, scan: Scan)
    requires |inp.epochs| > 0 && ScanIs(inp, |inp.epochs|, scan)
    requires inp.checkpoint.Some? ==> inp.checkpoint.value.chainVersion == inp.head.chainVersion
    ensures Finish(inp, scan) == Failure(CheckpointMismatch) <==>
      && inp.epochs[|inp.epochs| - 1].number == inp.head.chainEpoch
      && (forall i :: 0 <= i < |inp.entries| ==> ListedIn(inp, |inp.epochs|, inp.entries[i].chainEpoch))
      && inp.checkpoint.Some? && !CheckpointOk(inp, inp.checkpoint.value)
    ensures Finish(inp, scan).Failure? ==> Finish(inp, scan).error != HeadMalformed && Finish(inp, scan).error != SourceMalformed
  {
    FinishExact(inp, scan);
    NoCheckpoint(inp, inp.(checkpoint := None), scan);
    FinishExact(inp.(checkpoint := None), scan);
    assert forall n :: ListedIn(inp.(checkpoint := None), |inp.epochs|, n) == ListedIn(inp, |inp.epochs|, n);
  }

  /** A snapshot is rejected for its checkpoint if and only if the versions differ, or all its rows are
      right and the checkpoint is not met by them: nothing else is ever reported that way. */
  lemma CheckpointReason(c: Codec, inp: Inputs)
    ensures Verify(c, inp) == Failure(HeadMalformed) <==> !HeadShape(inp.head)
    ensures Verify(c, inp) == Failure(CheckpointMismatch) <==>
      && HeadShape(inp.head) && inp.checkpoint.Some?
      && (inp.checkpoint.value.chainVersion != inp.head.chainVersion
          || (RowsOk(c, inp) && !CheckpointOk(inp, inp.checkpoint.value)))
    ensures Verify(c, inp) == Failure(SourceMalformed) <==>
      && HeadShape(inp.head) && (inp.checkpoint.Some? ==> inp.checkpoint.value.chainVersion == inp.head.chainVersion)
      && SourceMap(inp.sources).None?
  {
    if HeadShape(inp.head) && SourceMap(inp.sources).Some?
       && (inp.checkpoint.Some? ==> inp.checkpoint.value.chainVersion == inp.head.chainVersion) {
      RowsScanned(c, inp, SourceMap(inp.sources).value, Scan(map[], false, false, 0));
    }
  }

  lemma RowsScanned(c: Codec, inp: Inputs, sources: map<Source, Event>, start: Scan)
    requires start == Scan(map[], false, false, 0)
    requires inp.checkpoint.Some? ==> inp.checkpoint.value.chainVersion == inp.head.chainVersion
    requires SourceMap(inp.sources) == Some(sources)
    ensures var r := ScanEpochs(c, inp, sources, inp.epochs, start);
      && (r.Failure? ==> OfTheRows(r.error) && !RowsOk(c, inp))
      && (r.Success? ==>
            && (Finish(inp, r.value) == Failure(CheckpointMismatch) <==>
                  RowsOk(c, inp) && inp.checkpoint.Some? && !CheckpointOk(inp, inp.checkpoint.value))
            && (Finish(inp, r.value).Failure? ==> Finish(inp, r.value).error != HeadMalformed && Finish(inp, r.value).error != SourceMalformed))
  {
    assert inp.epochs[0..] == inp.epochs && ScanIs(inp, 0, start);
    ScanEpochsExact(c, inp, sources, 0, start);
    EpochsOkEach(c, inp, sources, 0);
    EpochErrors(c, inp, sources, inp.epochs, start);
    var r := ScanEpochs(c, inp, sources, inp.epochs, start);
    if r.Success? && |inp.epochs| > 0 {
      FinishReasons(inp, r.value);
    }
  }
}
