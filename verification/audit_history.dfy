/**
 Honest histories: entries appended with the builder at head + 1, and epochs opened on the
 position and digest of an earlier entry.  The verifier accepts every one of them.
 */
module AuditHistory {
  import opened Wrappers
  import opened AuditChain
  import opened AuditAcceptance

  /** Append an event (with a source for the v2 form), stored under the source identity `key`;
      or open epoch `number` on the entry at an earlier position. */
  datatype Act =
    | Append(event: Event, source: Option<Source>, key: Source)
    | Open(number: int, reason: Reason, predecessorEpoch: int, predecessorSequence: int)

  function Adopt(organization: string): Inputs {
    Inputs(organization, Head(organization, CHAIN_VERSION, 1, 0, None),
           [Epoch(CHAIN_VERSION, 1, InitialAdoption, None, None, None)], [], [], None)
  }

  /** One act on the stored rows; None where the store would refuse it. */
  function Perform(c: Codec, inp: Inputs, act: Act): Option<Inputs> {
    match act
    case Append(event, source, key) =>
      var built := BuildEntry(c, event, source, CHAIN_VERSION, inp.head.chainEpoch, inp.head.sequence + 1, inp.head.digest);
      if built.Failure? || event.organization != inp.organization || SourceMap(inp.sources + [(key, event)]).None? then None
      else Some(inp.(
        entries := inp.entries + [EntryInput(inp.head.chainEpoch, key, built.value)],
        sources := inp.sources + [(key, event)],
        head := inp.head.(sequence := inp.head.sequence + 1, digest := Some(built.value.digest))))
    case Open(n, reason, pe, ps) =>
      var d := DigestAt(inp, pe, ps);
      if n <= inp.head.chainEpoch || d.None? || !(reason.Restore? || reason.Migration?) then None
      else Some(inp.(
        epochs := inp.epochs + [Epoch(CHAIN_VERSION, n, reason, Some(pe), Some(ps), d)],
        head := inp.head.(chainEpoch := n, sequence := 0, digest := d)))
  }

  function Build(c: Codec, organization: string, acts: seq<Act>): Option<Inputs> {
    if acts == [] then Some(Adopt(organization))
    else
      var before := Build(c, organization, acts[..|acts| - 1]);
      if before.None? then None else Perform(c, before.value, acts[|acts| - 1])
  }

  // ---------------------------------------------------------------- appending

  lemma EntriesAppend(entries: seq<EntryInput>, x: EntryInput, n: int)
    ensures EntriesOf(entries + [x], n) == EntriesOf(entries, n) + (if x.chainEpoch == n then [x] else [])
  {
    assert (entries + [x])[..|entries|] == entries;
  }

  lemma SourceAppend(sources: seq<(Source, Event)>, key: Source, event: Event)
    ensures SourceMap(sources + [(key, event)]).Some? <==> SourceMap(sources).Some? && key !in SourceMap(sources).value
    ensures SourceMap(sources + [(key, event)]).Some? ==>
              SourceMap(sources + [(key, event)]).value == SourceMap(sources).value[key := event]
  {
    assert (sources + [(key, event)])[..|sources|] == sources;
  }

  /** Rows that grew by one entry of the last epoch. */
  ghost predicate Grown(inp: Inputs, out: Inputs, x: EntryInput, event: Event) {
    && SourceMap(inp.sources).Some? && x.source !in SourceMap(inp.sources).value
    && out.entries == inp.entries + [x] && x.chainEpoch == inp.head.chainEpoch
    && out.sources == inp.sources + [(x.source, event)]
    && out.organization == inp.organization && out.epochs == inp.epochs && out.checkpoint == inp.checkpoint
    && out.head == inp.head.(sequence := out.head.sequence, digest := out.head.digest)
  }

  /** What was verified stays verified, under the same digest. */
  lemma GrownKeepsDigest(inp: Inputs, out: Inputs, x: EntryInput, event: Event, i: nat, epoch: int, sequence: int)
    requires Grown(inp, out, x, event) && i <= |inp.epochs|
    ensures epoch != inp.head.chainEpoch ==> DigestIn(out, i, epoch, sequence) == DigestIn(inp, i, epoch, sequence)
    ensures DigestIn(inp, i, epoch, sequence).Some? ==> DigestIn(out, i, epoch, sequence) == DigestIn(inp, i, epoch, sequence)
  {
    EntriesAppend(inp.entries, x, epoch);
    assert ListedIn(out, i, epoch) == ListedIn(inp, i, epoch);
  }

  lemma GrownHeader(c: Codec, inp: Inputs, out: Inputs, x: EntryInput, event: Event, i: nat)
    requires Accepted(c, inp) && Grown(inp, out, x, event) && i < |inp.epochs|
    ensures HeaderOk(out, i) && Anchors(out, i) == Anchors(inp, i)
  {
    var e := inp.epochs[i];
    assert EpochOk(c, inp, SourceMap(inp.sources).value, i);
    if e.number != 1 {
      GrownKeepsDigest(inp, out, x, event, i, e.predecessorEpoch.value, e.predecessorSequence.value);
    }
  }

  lemma GrownEntries(c: Codec, inp: Inputs, out: Inputs, x: EntryInput, event: Event, i: nat)
    requires Accepted(c, inp) && Grown(inp, out, x, event) && i < |inp.epochs|
    requires var e := inp.epochs[i]; e.number == inp.head.chainEpoch ==>
      VerifyEntry(c, x.entry, inp.organization, e.chainVersion, e.number, inp.head.sequence + 1, inp.head.digest, Some(event)).Success?
    ensures EntriesOk(c, out, SourceMap(out.sources).value, inp.epochs[i])
  {
    var e := inp.epochs[i];
    assert EpochOk(c, inp, SourceMap(inp.sources).value, i);
    SourceAppend(inp.sources, x.source, event);
    EntriesAppend(inp.entries, x, e.number);
    var was, now := EntriesOf(inp.entries, e.number), EntriesOf(out.entries, e.number);
    forall k | 0 <= k < |now| ensures EntryOk(c, out, SourceMap(out.sources).value, e, now, k) {
      if k < |was| {
        assert EntryOk(c, inp, SourceMap(inp.sources).value, e, was, k);
        assert now[k] == was[k] && PreviousAt(e, now, k) == PreviousAt(e, was, k);
      } else {
        assert now[k] == x && PreviousAt(e, now, k) == PreviousAt(e, was, |was|);
      }
    }
  }

  lemma GrownEpoch(c: Codec, inp: Inputs, out: Inputs, x: EntryInput, event: Event, i: nat)
    requires Accepted(c, inp) && Grown(inp, out, x, event) && i < |inp.epochs|
    requires out.head.sequence == inp.head.sequence + 1 && out.head.digest == Some(x.entry.digest)
    requires VerifyEntry(c, x.entry, inp.organization, inp.head.chainVersion, inp.head.chainEpoch, inp.head.sequence + 1,
                         inp.head.digest, Some(event)).Success?
    ensures SourceMap(out.sources).Some? && EpochOk(c, out, SourceMap(out.sources).value, i)
  {
    assert EpochOk(c, inp, SourceMap(inp.sources).value, i);
    SourceAppend(inp.sources, x.source, event);
    GrownHeader(c, inp, out, x, event, i);
    GrownEntries(c, inp, out, x, event, i);
    EntriesAppend(inp.entries, x, inp.epochs[i].number);
  }

  lemma GrownKeepsCheckpoint(c: Codec, inp: Inputs, out: Inputs, x: EntryInput, event: Event)
    requires Accepted(c, inp) && Grown(inp, out, x, event) && inp.checkpoint.Some?
    ensures CheckpointOk(out, inp.checkpoint.value)
  {
    var cp := inp.checkpoint.value;
    if DigestAt(inp, cp.chainEpoch, cp.sequence) == Some(cp.digest) {
      GrownKeepsDigest(inp, out, x, event, |inp.epochs|, cp.chainEpoch, cp.sequence);
    } else {
      var i :| 0 <= i < |inp.epochs| && Anchors(inp, i);
      GrownHeader(c, inp, out, x, event, i);
    }
  }

  lemma GrownIsAccepted(c: Codec, inp: Inputs, out: Inputs, x: EntryInput, event: Event)
    requires Accepted(c, inp) && Grown(inp, out, x, event)
    requires out.head.sequence == inp.head.sequence + 1 && out.head.digest == Some(x.entry.digest)
    requires VerifyEntry(c, x.entry, inp.organization, inp.head.chainVersion, inp.head.chainEpoch, inp.head.sequence + 1,
                         inp.head.digest, Some(event)).Success?
    ensures Accepted(c, out)
  {
    SourceAppend(inp.sources, x.source, event);
    forall i | 0 <= i < |out.epochs| ensures EpochOk(c, out, SourceMap(out.sources).value, i) {
      GrownEpoch(c, inp, out, x, event, i);
    }
    forall i | 0 <= i < |out.entries| ensures ListedIn(out, |out.epochs|, out.entries[i].chainEpoch) {
      GrownListed(c, inp, out, x, event, i);
    }
    if inp.checkpoint.Some? {
      GrownKeepsCheckpoint(c, inp, out, x, event);
    }
  }

  lemma GrownListed(c: Codec, inp: Inputs, out: Inputs, x: EntryInput, event: Event, i: nat)
    requires Accepted(c, inp) && Grown(inp, out, x, event) && i < |out.entries|
    ensures ListedIn(out, |out.epochs|, out.entries[i].chainEpoch)
  {
    if i < |inp.entries| {
      assert out.entries[i] == inp.entries[i];
      assert ListedIn(inp, |inp.epochs|, inp.entries[i].chainEpoch);
    } else {
      assert out.epochs[|out.epochs| - 1].number == inp.head.chainEpoch;
    }
  }

  /** What the builder makes, the entry verifier accepts at the same position. */
  lemma BuiltEntryVerifies(c: Codec, event: Event, source: Option<Source>, chainVersion: int, chainEpoch: int,
                           sequence: int, previous: Option<string>)
    requires BuildEntry(c, event, source, chainVersion, chainEpoch, sequence, previous).Success?
    ensures var entry := BuildEntry(c, event, source, chainVersion, chainEpoch, sequence, previous).value;
      VerifyEntry(c, entry, event.organization, chainVersion, chainEpoch, sequence, previous, Some(event)) == Success(entry.digest)
  {
  }

  lemma AppendGrows(c: Codec, inp: Inputs, act: Act) returns (x: EntryInput)
    requires act.Append? && Perform(c, inp, act).Some?
    ensures var out := Perform(c, inp, act).value;
      && Grown(inp, out, x, act.event)
      && out.head.sequence == inp.head.sequence + 1 && out.head.digest == Some(x.entry.digest)
    ensures VerifyEntry(c, x.entry, inp.organization, CHAIN_VERSION, inp.head.chainEpoch, inp.head.sequence + 1,
                        inp.head.digest, Some(act.event)).Success?
  {
    var built := BuildEntry(c, act.event, act.source, CHAIN_VERSION, inp.head.chainEpoch, inp.head.sequence + 1, inp.head.digest);
    x := EntryInput(inp.head.chainEpoch, act.key, built.value);
    BuiltEntryVerifies(c, act.event, act.source, CHAIN_VERSION, inp.head.chainEpoch, inp.head.sequence + 1, inp.head.digest);
    SourceAppend(inp.sources, act.key, act.event);
  }

  lemma AppendKeepsAccepted(c: Codec, inp: Inputs, act: Act)
    requires Accepted(c, inp) && act.Append? && Perform(c, inp, act).Some?
    ensures Accepted(c, Perform(c, inp, act).value)
  {
    var x := AppendGrows(c, inp, act);
    assert inp.head.chainVersion == CHAIN_VERSION;
    GrownIsAccepted(c, inp, Perform(c, inp, act).value, x, act.event);
  }

  // ---------------------------------------------------------------- opening an epoch

  lemma {:induction false} NoEntriesYet(entries: seq<EntryInput>, n: int)
    requires forall i :: 0 <= i < |entries| ==> entries[i].chainEpoch != n
    ensures EntriesOf(entries, n) == []
  {
    if entries != [] {
      NoEntriesYet(entries[..|entries| - 1], n);
    }
  }

  lemma OpenKeepsEpoch(c: Codec, inp: Inputs, out: Inputs, i: nat)
    requires Accepted(c, inp) && i < |inp.epochs| && inp.epochs <= out.epochs
    requires out == inp.(epochs := out.epochs, head := out.head)
    requires out.head.chainVersion == inp.head.chainVersion && out.head.chainEpoch > inp.head.chainEpoch
    ensures EpochOk(c, out, SourceMap(out.sources).value, i) && Anchors(out, i) == Anchors(inp, i)
  {
    var e := inp.epochs[i];
    assert EpochOk(c, inp, SourceMap(inp.sources).value, i);
    assert out.epochs[i] == e;
    assert forall n :: ListedIn(out, i, n) == ListedIn(inp, i, n);
    var entries := EntriesOf(inp.entries, e.number);
    forall k | 0 <= k < |entries| ensures EntryOk(c, out, SourceMap(out.sources).value, e, entries, k) {
      assert EntryOk(c, inp, SourceMap(inp.sources).value, e, entries, k);
    }
  }

  lemma OpenedEpoch(c: Codec, inp: Inputs, act: Act)
    requires Accepted(c, inp) && act.Open? && Perform(c, inp, act).Some?
    requires forall b: Body :: IsDigest(c.hash(b))
    ensures var out := Perform(c, inp, act).value;
      EpochOk(c, out, SourceMap(out.sources).value, |inp.epochs|) && IsDigest(out.head.digest.value)
  {
    var out := Perform(c, inp, act).value;
    var i := |inp.epochs|;
    var e := out.epochs[i];
    forall j | 0 <= j < i ensures out.epochs[j].number < e.number && 1 <= out.epochs[j].number {
      assert EpochOk(c, inp, SourceMap(inp.sources).value, j);
    }
    var j :| 0 <= j < i && inp.epochs[j].number == act.predecessorEpoch;
    var entries := EntriesOf(inp.entries, act.predecessorEpoch);
    assert EpochOk(c, inp, SourceMap(inp.sources).value, j);
    assert EntryOk(c, inp, SourceMap(inp.sources).value, inp.epochs[j], entries, act.predecessorSequence - 1);
    forall n ensures ListedIn(out, i, n) == ListedIn(inp, i, n) {
      assert forall m :: 0 <= m < i ==> out.epochs[m] == inp.epochs[m];
    }
    forall k | 0 <= k < |inp.entries| ensures inp.entries[k].chainEpoch != e.number {
      assert ListedIn(inp, i, inp.entries[k].chainEpoch);
    }
    NoEntriesYet(inp.entries, e.number);
  }

  lemma OpenKeepsAccepted(c: Codec, inp: Inputs, act: Act)
    requires Accepted(c, inp) && act.Open? && Perform(c, inp, act).Some?
    requires forall b: Body :: IsDigest(c.hash(b))
    ensures Accepted(c, Perform(c, inp, act).value)
  {
    var out := Perform(c, inp, act).value;
    OpenedEpoch(c, inp, act);
    forall i | 0 <= i < |inp.epochs|
      ensures EpochOk(c, out, SourceMap(out.sources).value, i) && Anchors(out, i) == Anchors(inp, i)
    {
      OpenKeepsEpoch(c, inp, out, i);
    }
    forall n | ListedIn(inp, |inp.epochs|, n) ensures ListedIn(out, |out.epochs|, n) {
      var j :| 0 <= j < |inp.epochs| && inp.epochs[j].number == n;
      assert out.epochs[j].number == n;
    }
    if inp.checkpoint.Some? {
      var cp := inp.checkpoint.value;
      if DigestAt(inp, cp.chainEpoch, cp.sequence) != Some(cp.digest) {
        var i :| 0 <= i < |inp.epochs| && Anchors(inp, i);
        assert Anchors(out, i);
      }
    }
  }

  // ---------------------------------------------------------------- completeness

  lemma {:induction false} BuiltIsAccepted(c: Codec, organization: string, acts: seq<Act>)
    requires forall b: Body :: IsDigest(c.hash(b))
    requires Build(c, organization, acts).Some?
    ensures Accepted(c, Build(c, organization, acts).value)
    ensures Build(c, organization, acts).value.checkpoint.None?
  {
    if acts == [] {
      var inp := Adopt(organization);
      assert SourceMap(inp.sources) == Some(map[]);
      assert EntriesOf(inp.entries, 1) == [];
    } else {
      BuiltIsAccepted(c, organization, acts[..|acts| - 1]);
      var before := Build(c, organization, acts[..|acts| - 1]).value;
      var act := acts[|acts| - 1];
      if act.Append? {
        AppendKeepsAccepted(c, before, act);
      } else {
        OpenKeepsAccepted(c, before, act);
      }
    }
  }

  /** Completeness: every honest history, with empty epochs and both entry forms mixed, is
      accepted and returns its own head, with no checkpoint or with one taken anywhere in it. */
  lemma HonestHistoriesVerify(c: Codec, organization: string, acts: seq<Act>, checkpoint: Option<Checkpoint>)
    requires forall b: Body :: IsDigest(c.hash(b))
    requires Build(c, organization, acts).Some?
    requires checkpoint.Some? ==> checkpoint.value.chainVersion == CHAIN_VERSION
    requires checkpoint.Some? ==>
               DigestAt(Build(c, organization, acts).value, checkpoint.value.chainEpoch, checkpoint.value.sequence)
               == Some(checkpoint.value.digest)
    ensures var inp := Build(c, organization, acts).value.(checkpoint := checkpoint);
      Verify(c, inp) == Success(inp.head)
  {
    BuiltIsAccepted(c, organization, acts);
    var plain := Build(c, organization, acts).value;
    var inp := plain.(checkpoint := checkpoint);
    assert forall n :: ListedIn(inp, |inp.epochs|, n) == ListedIn(plain, |inp.epochs|, n);
    forall i | 0 <= i < |inp.epochs| ensures EpochOk(c, inp, SourceMap(inp.sources).value, i) {
      CheckpointAside(c, plain, inp, i);
    }
    VerifyExact(c, inp);
  }

  /** No epoch of a history verified without a checkpoint depends on one. */
  lemma CheckpointAside(c: Codec, plain: Inputs, inp: Inputs, i: nat)
    requires Accepted(c, plain) && plain.checkpoint.None? && inp == plain.(checkpoint := inp.checkpoint)
    requires i < |plain.epochs|
    ensures EpochOk(c, inp, SourceMap(inp.sources).value, i)
  {
    var e := plain.epochs[i];
    assert EpochOk(c, plain, SourceMap(plain.sources).value, i);
    assert forall n :: ListedIn(inp, i, n) == ListedIn(plain, i, n);
    var entries := EntriesOf(inp.entries, e.number);
    forall k | 0 <= k < |entries| ensures EntryOk(c, inp, SourceMap(inp.sources).value, e, entries, k) {
      assert EntryOk(c, plain, SourceMap(plain.sources).value, e, entries, k);
    }
  }
}
