/**
 The commit-time audit chain: entry builder, entry verifier and the verifier of a whole
 snapshot of epochs, entries, source events and an optional external checkpoint.

 SHA-256 over the canonical body is `codec.hash`, an arbitrary function of the body; the
 closed event contracts are `codec.valid`.  An entry without a source is the v1 form, one
 with a source the v2 form; the body carries the same distinction.
 */
module AuditChain {
  import opened Wrappers

  const CHAIN_VERSION := 1

  datatype Event = Event(organization: string, content: string)

  datatype Source = Source(schemaId: string, schemaVersion: int, eventId: string)

  datatype Body = Body(
    organization: string, chainVersion: int, chainEpoch: int, sequence: int,
    previous: Option<string>, source: Option<Source>, event: Event)

  datatype Entry = Entry(body: Body, digest: string)

  datatype Codec = Codec(hash: Body -> string, valid: (Event, Option<Source>) -> bool)

  datatype Head = Head(organization: string, chainVersion: int, chainEpoch: int, sequence: int, digest: Option<string>)

  datatype Reason = InitialAdoption | Restore | Migration | OtherReason

  datatype Epoch = Epoch(
    chainVersion: int, number: int, reason: Reason,
    predecessorEpoch: Option<int>, predecessorSequence: Option<int>, predecessorDigest: Option<string>)

  datatype EntryInput = EntryInput(chainEpoch: int, source: Source, entry: Entry)

  datatype Checkpoint = Checkpoint(chainVersion: int, chainEpoch: int, sequence: int, digest: string)

  datatype Inputs = Inputs(
    organization: string, head: Head, epochs: seq<Epoch>, entries: seq<EntryInput>,
    sources: seq<(Source, Event)>, checkpoint: Option<Checkpoint>)

  datatype Error =
    | HeadMalformed | CheckpointMismatch | SourceMalformed | EpochMalformed
    | PredecessorInvalid | CheckpointRequired | HeadMismatch
    | EntryMalformed | SequenceInvalid | SourceMissing | SourceMismatch | DigestInvalid
    | PositionInvalid

  predicate IsDigest(d: string) {
    |d| == 64 && forall i :: 0 <= i < |d| ==> '0' <= d[i] <= '9' || 'a' <= d[i] <= 'f'
  }

  // ---------------------------------------------------------------- one entry

  /** The contract every stored entry meets before its chain position is looked at. */
  predicate EntryShape(c: Codec, e: Entry) {
    && e.body.chainVersion == CHAIN_VERSION && e.body.chainEpoch >= 1 && e.body.sequence >= 1
    && (e.body.previous.Some? ==> IsDigest(e.body.previous.value))
    && IsDigest(e.digest)
    && c.valid(e.body.event, e.body.source)
    && e.body.event.organization == e.body.organization
  }

  function BuildEntry(c: Codec, event: Event, source: Option<Source>, chainVersion: int, chainEpoch: int,
                      sequence: int, previous: Option<string>): (r: Result<Entry, Error>)
    ensures r.Success? ==> EntryShape(c, r.value) && r.value.digest == c.hash(r.value.body)
    ensures r.Success? ==> r.value.body == Body(event.organization, chainVersion, chainEpoch, sequence, previous, source, event)
    ensures (forall b: Body :: IsDigest(c.hash(b))) ==>
      (r.Success? <==>
        && chainVersion == CHAIN_VERSION && chainEpoch >= 1 && sequence >= 1
        && (previous.None? || IsDigest(previous.value)) && c.valid(event, source))
  {
    if chainVersion != CHAIN_VERSION || chainEpoch < 1 || sequence < 0 then Failure(PositionInvalid)
    else if previous.Some? && !IsDigest(previous.value) then Failure(PredecessorInvalid)
    else
      var body := Body(event.organization, chainVersion, chainEpoch, sequence, previous, source, event);
      var entry := Entry(body, c.hash(body));
      if EntryShape(c, entry) then Success(entry) else Failure(EntryMalformed)
  }

  /** Check one stored entry against its expected position and its source event. */
  function VerifyEntry(c: Codec, e: Entry, organization: string, chainVersion: int, chainEpoch: int,
                       sequence: int, previous: Option<string>, source: Option<Event>): (r: Result<string, Error>)
    ensures r.Success? <==>
      && EntryShape(c, e) && source == Some(e.body.event)
      && e.body == Body(organization, chainVersion, chainEpoch, sequence, previous, e.body.source, e.body.event)
      && e.digest == c.hash(e.body)
    ensures r.Success? ==> r.value == e.digest && e.body.event.organization == organization
  {
    if !EntryShape(c, e) then Failure(EntryMalformed)
    else if e.body.organization != organization || e.body.chainVersion != chainVersion
      || e.body.chainEpoch != chainEpoch || e.body.sequence != sequence then Failure(SequenceInvalid)
    else if e.body.previous != previous then Failure(PredecessorInvalid)
    else if source.None? then Failure(SourceMissing)
    else if source.value != e.body.event then Failure(SourceMismatch)
    else if e.digest != c.hash(Body(organization, chainVersion, chainEpoch, sequence, previous, e.body.source, e.body.event))
    then Failure(DigestInvalid)
    else Success(e.digest)
  }

  /** The externally kept checkpoint of a non-empty head. */
  function BuildCheckpoint(head: Head): (r: Result<Checkpoint, Error>)
    ensures r.Success? <==>
      && head.chainVersion == CHAIN_VERSION && head.chainEpoch >= 1 && head.sequence >= 1
      && head.digest.Some? && IsDigest(head.digest.value)
    ensures r.Success? ==> r.value.chainVersion == head.chainVersion && head.digest == Some(r.value.digest)
    ensures r.Success? ==> r.value.chainEpoch == head.chainEpoch && r.value.sequence == head.sequence
  {
    if head.chainVersion != CHAIN_VERSION || head.chainEpoch < 1 || head.sequence < 0 then Failure(PositionInvalid)
    else if head.sequence < 1 || head.digest.None? then Failure(HeadMalformed)
    else if !IsDigest(head.digest.value) then Failure(DigestInvalid)
    else Success(Checkpoint(head.chainVersion, head.chainEpoch, head.sequence, head.digest.value))
  }

  // ---------------------------------------------------------------- a whole snapshot

  function SourceMap(sources: seq<(Source, Event)>): Option<map<Source, Event>> {
    if sources == [] then Some(map[])
    else
      var rest := SourceMap(sources[..|sources| - 1]);
      var (source, event) := sources[|sources| - 1];
      if rest.None? || source in rest.value then None else Some(rest.value[source := event])
  }

  function Lookup<K, V>(m: map<K, V>, k: K): Option<V> {
    if k in m then Some(m[k]) else None
  }

  /** The stored entries of epoch `n`, in their stored order. */
  function EntriesOf(entries: seq<EntryInput>, n: int): seq<EntryInput> {
    if entries == [] then []
    else
      var rest := EntriesOf(entries[..|entries| - 1], n);
      if entries[|entries| - 1].chainEpoch == n then rest + [entries[|entries| - 1]] else rest
  }

  /** Progress of the scan: digests verified so far by position, whether the active epoch was
      seen, whether an epoch was anchored on the checkpoint, and the last epoch number. */
  datatype Scan = Scan(verified: map<(int, int), string>, active: bool, matched: bool, previous: int)

  predicate EpochShape(e: Epoch) {
    if e.number == 1 then
      e.reason.InitialAdoption? && e.predecessorEpoch.None? && e.predecessorSequence.None? && e.predecessorDigest.None?
    else
      && (e.reason.Restore? || e.reason.Migration?)
      && e.predecessorEpoch.Some? && e.predecessorSequence.Some? && e.predecessorDigest.Some?
      && 1 <= e.predecessorEpoch.value < e.number && e.predecessorSequence.value >= 1
      && IsDigest(e.predecessorDigest.value)
  }

  /** The checkpoint names exactly the predecessor position and digest of the epoch. */
  predicate AnchoredOn(checkpoint: Option<Checkpoint>, e: Epoch)
    requires e.predecessorEpoch.Some? && e.predecessorSequence.Some? && e.predecessorDigest.Some?
  {
    checkpoint == Some(Checkpoint(e.chainVersion, e.predecessorEpoch.value, e.predecessorSequence.value,
                                  e.predecessorDigest.value))
  }

  /** Entries of one epoch, checked one after another from `sequence` on. */
  function ScanEntries(c: Codec, inp: Inputs, sources: map<Source, Event>, e: Epoch, entries: seq<EntryInput>,
                       sequence: int, previous: Option<string>, verified: map<(int, int), string>)
    : Result<(map<(int, int), string>, int, Option<string>), Error>
    decreases |entries|
  {
    if entries == [] then Success((verified, sequence, previous))
    else
      var r := VerifyEntry(c, entries[0].entry, inp.organization, e.chainVersion, e.number, sequence, previous,
                           Lookup(sources, entries[0].source));
      if r.Failure? then Failure(r.error)
      else ScanEntries(c, inp, sources, e, entries[1..], sequence + 1, Some(r.value),
                       verified[(e.number, sequence) := r.value])
  }

  /** Shape, predecessor and anchoring of an epoch: whether it uses the checkpoint. */
  function ScanEpochHeader(inp: Inputs, e: Epoch, scan: Scan): Result<bool, Error> {
    if e.chainVersion != inp.head.chainVersion || e.number < 1 || e.number <= scan.previous
       || e.number > inp.head.chainEpoch || !EpochShape(e)
    then Failure(EpochMalformed)
    else if e.number == 1 then Success(false)
    else
      var predecessor := Lookup(scan.verified, (e.predecessorEpoch.value, e.predecessorSequence.value));
      if predecessor.Some? then
        if predecessor == e.predecessorDigest then Success(false) else Failure(PredecessorInvalid)
      else if AnchoredOn(inp.checkpoint, e) then Success(true) else Failure(CheckpointRequired)
  }

  function ScanEpoch(c: Codec, inp: Inputs, sources: map<Source, Event>, e: Epoch, scan: Scan): Result<Scan, Error> {
    var header := ScanEpochHeader(inp, e, scan);
    if header.Failure? then Failure(header.error)
    else
      var r := ScanEntries(c, inp, sources, e, EntriesOf(inp.entries, e.number), 1, e.predecessorDigest, scan.verified);
      if r.Failure? then Failure(r.error)
      else
        var (verified, next, previous) := r.value;
        if e.number == inp.head.chainEpoch && (inp.head.sequence != next - 1 || inp.head.digest != previous)
        then Failure(HeadMismatch)
        else Success(Scan(verified, scan.active || e.number == inp.head.chainEpoch, scan.matched || header.value, e.number))
  }

  function ScanEpochs(c: Codec, inp: Inputs, sources: map<Source, Event>, epochs: seq<Epoch>, scan: Scan): Result<Scan, Error>
    decreases |epochs|
  {
    if epochs == [] then Success(scan)
    else
      var r := ScanEpoch(c, inp, sources, epochs[0], scan);
      if r.Failure? then r else ScanEpochs(c, inp, sources, epochs[1..], r.value)
  }

  /** No position of epoch `n` was verified. */
  predicate Unverified(verified: map<(int, int), string>, n: int) {
    forall key :: key in verified ==> key.0 != n
  }

  function Finish(inp: Inputs, scan: Scan): Result<Head, Error> {
    if !scan.active || scan.previous != inp.head.chainEpoch then Failure(HeadMismatch)
    else if exists i :: 0 <= i < |inp.entries| && Unverified(scan.verified, inp.entries[i].chainEpoch)
    then Failure(EpochMalformed)
    else if inp.checkpoint.Some? && !scan.matched
      && Lookup(scan.verified, (inp.checkpoint.value.chainEpoch, inp.checkpoint.value.sequence)) != Some(inp.checkpoint.value.digest)
    then Failure(CheckpointMismatch)
    else Success(inp.head)
  }

  predicate HeadShape(head: Head) {
    && head.chainVersion == CHAIN_VERSION && head.chainEpoch >= 1 && head.sequence >= 0
    && (head.digest.Some? ==> IsDigest(head.digest.value))
  }

  function Verify(c: Codec, inp: Inputs): Result<Head, Error> {
    if !HeadShape(inp.head) then Failure(HeadMalformed)
    else if inp.checkpoint.Some? && inp.checkpoint.value.chainVersion != inp.head.chainVersion then Failure(CheckpointMismatch)
    else
      var sources := SourceMap(inp.sources);
      if sources.None? then Failure(SourceMalformed)
      else
        var scan := ScanEpochs(c, inp, sources.value, inp.epochs, Scan(map[], false, false, 0));
        if scan.Failure? then Failure(scan.error) else Finish(inp, scan.value)
  }

  // ---------------------------------------------------------------- the verifier's loops

  method IndexSources(sources: seq<(Source, Event)>) returns (r: Option<map<Source, Event>>)
    ensures r == SourceMap(sources)
  {
    var indexed: map<Source, Event> := map[];
    for i := 0 to |sources|
      invariant SourceMap(sources[..i]) == Some(indexed)
    {
      assert sources[..i + 1][..i] == sources[..i];
      var (source, event) := sources[i];
      if source in indexed {
        DuplicateSource(sources, i);
        return None;
      }
      indexed := indexed[source := event];
    }
    assert sources[..|sources|] == sources;
    return Some(indexed);
  }

  /** A duplicate among the first sources spoils the whole index. */
  lemma {:induction false} DuplicateSource(sources: seq<(Source, Event)>, i: nat)
    requires i < |sources| && SourceMap(sources[..i + 1]).None?
    ensures SourceMap(sources).None?
    decreases |sources| - i
  {
    if i + 1 == |sources| {
      assert sources[..i + 1] == sources;
    } else {
      assert sources[..i + 2][..i + 1] == sources[..i + 1];
      DuplicateSource(sources, i + 1);
    }
  }

  method GroupEntries(entries: seq<EntryInput>) returns (byEpoch: map<int, seq<EntryInput>>)
    ensures forall n :: n in byEpoch <==> exists i :: 0 <= i < |entries| && entries[i].chainEpoch == n
    ensures forall n :: (if n in byEpoch then byEpoch[n] else []) == EntriesOf(entries, n)
  {
    byEpoch := map[];
    for i := 0 to |entries|
      invariant forall n :: n in byEpoch <==> exists j :: 0 <= j < i && entries[j].chainEpoch == n
      invariant forall n :: (if n in byEpoch then byEpoch[n] else []) == EntriesOf(entries[..i], n)
    {
      assert entries[..i + 1][..i] == entries[..i];
      var n := entries[i].chainEpoch;
      byEpoch := byEpoch[n := (if n in byEpoch then byEpoch[n] else []) + [entries[i]]];
    }
    assert entries[..|entries|] == entries;
  }

  method VerifyEpochEntries(c: Codec, inp: Inputs, sources: map<Source, Event>, e: Epoch, entries: seq<EntryInput>,
                            before: map<(int, int), string>)
    returns (r: Result<(map<(int, int), string>, int, Option<string>), Error>)
    ensures r == ScanEntries(c, inp, sources, e, entries, 1, e.predecessorDigest, before)
  {
    var verified, expected, previous := before, 1, e.predecessorDigest;
    for i := 0 to |entries|
      invariant ScanEntries(c, inp, sources, e, entries, 1, e.predecessorDigest, before)
        == ScanEntries(c, inp, sources, e, entries[i..], expected, previous, verified)
    {
      var digest := VerifyEntry(c, entries[i].entry, inp.organization, e.chainVersion, e.number, expected, previous,
                                Lookup(sources, entries[i].source));
      assert entries[i..][1..] == entries[i + 1..];
      if digest.Failure? {
        return Failure(digest.error);
      }
      verified := verified[(e.number, expected) := digest.value];
      previous := Some(digest.value);
      expected := expected + 1;
    }
    return Success((verified, expected, previous));
  }

  /** The snapshot verifier, as nested loops over epochs and their entries. */
  method VerifyAuditChainInputs(c: Codec, inp: Inputs) returns (r: Result<Head, Error>)
    ensures r == Verify(c, inp)
  {
    if !HeadShape(inp.head) {
      return Failure(HeadMalformed);
    }
    if inp.checkpoint.Some? && inp.checkpoint.value.chainVersion != inp.head.chainVersion {
      return Failure(CheckpointMismatch);
    }
    var index := IndexSources(inp.sources);
    if index.None? {
      return Failure(SourceMalformed);
    }
    var byEpoch := GroupEntries(inp.entries);
    var scan := Scan(map[], false, false, 0);
    for i := 0 to |inp.epochs|
      invariant ScanEpochs(c, inp, index.value, inp.epochs, Scan(map[], false, false, 0))
        == ScanEpochs(c, inp, index.value, inp.epochs[i..], scan)
    {
      var e := inp.epochs[i];
      assert inp.epochs[i..][1..] == inp.epochs[i + 1..];
      var header := ScanEpochHeader(inp, e, scan);
      if header.Failure? {
        return Failure(header.error);
      }
      var entries := if e.number in byEpoch then byEpoch[e.number] else [];
      var checked := VerifyEpochEntries(c, inp, index.value, e, entries, scan.verified);
      if checked.Failure? {
        return Failure(checked.error);
      }
      var (verified, next, previous) := checked.value;
      if e.number == inp.head.chainEpoch {
        if inp.head.sequence != next - 1 || inp.head.digest != previous {
          return Failure(HeadMismatch);
        }
      }
      scan := Scan(verified, scan.active || e.number == inp.head.chainEpoch, scan.matched || header.value, e.number);
    }
    r := FinishScan(inp, byEpoch, scan);
  }

  method FinishScan(inp: Inputs, byEpoch: map<int, seq<EntryInput>>, scan: Scan) returns (r: Result<Head, Error>)
    requires forall n :: n in byEpoch <==> exists i :: 0 <= i < |inp.entries| && inp.entries[i].chainEpoch == n
    ensures r == Finish(inp, scan)
  {
    if !scan.active || scan.previous != inp.head.chainEpoch {
      return Failure(HeadMismatch);
    }
    if exists n :: n in byEpoch.Keys && Unverified(scan.verified, n) {
      return Failure(EpochMalformed);
    }
    assert forall i :: 0 <= i < |inp.entries| ==> inp.entries[i].chainEpoch in byEpoch;
    if inp.checkpoint.Some? && !scan.matched {
      var digest := Lookup(scan.verified, (inp.checkpoint.value.chainEpoch, inp.checkpoint.value.sequence));
      if digest != Some(inp.checkpoint.value.digest) {
        return Failure(CheckpointMismatch);
      }
    }
    return Success(inp.head);
  }
}
