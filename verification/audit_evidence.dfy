/**
 What an accepted snapshot is evidence of: equal heads mean equal histories and a checkpoint fixes
 the history it was taken from, or else two entries at hand have different bodies and one digest.
 */
module AuditEvidence {
  import opened Wrappers
  import opened AuditChain
  import opened AuditAcceptance

  /** An entry of one snapshot and an entry of another have different bodies and one digest. */
  ghost predicate Collide(c: Codec, a: Inputs, b: Inputs) {
    exists x, y :: x in a.entries && y in b.entries && x.entry.body != y.entry.body && c.hash(x.entry.body) == c.hash(y.entry.body)
  }

  /** The number of the first entry's predecessor epoch, as the epoch row records it. */
  function EpochRow(inp: Inputs, i: nat, n: int): Option<Epoch>
    requires i <= |inp.epochs|
  {
    if i == 0 then None
    else if inp.epochs[i - 1].number == n then Some(inp.epochs[i - 1])
    else EpochRow(inp, i - 1, n)
  }

  /** The position before the first entry of epoch `n`. */
  function PredecessorOf(inp: Inputs, n: int): Option<(int, int)> {
    var row := EpochRow(inp, |inp.epochs|, n);
    if row.Some? && row.value.predecessorEpoch.Some? && row.value.predecessorSequence.Some?
    then Some((row.value.predecessorEpoch.value, row.value.predecessorSequence.value)) else None
  }

  /** All entries on the predecessor path from a position back, newest first: down the epoch,
      then on into the epoch it continues, until genesis or a position outside the snapshot. */
  function Walk(inp: Inputs, epoch: int, sequence: int): seq<Entry>
    decreases epoch, sequence
  {
    if epoch < 1 || DigestAt(inp, epoch, sequence).None? then []
    else
      var entry := EntriesOf(inp.entries, epoch)[sequence - 1].entry;
      if sequence > 1 then [entry] + Walk(inp, epoch, sequence - 1)
      else
        var p := PredecessorOf(inp, epoch);
        if p.Some? && p.value.0 < epoch then [entry] + Walk(inp, p.value.0, p.value.1) else [entry]
  }

  /** The history behind the head; an empty active epoch starts at its predecessor. */
  function HeadWalk(inp: Inputs): seq<Entry> {
    if inp.head.sequence >= 1 then Walk(inp, inp.head.chainEpoch, inp.head.sequence)
    else
      var p := PredecessorOf(inp, inp.head.chainEpoch);
      if p.Some? then Walk(inp, p.value.0, p.value.1) else []
  }

  /** One history continues the other into the past. */
  predicate Agree(x: seq<Entry>, y: seq<Entry>) {
    x <= y || y <= x
  }

  /** The history goes back to the first entry of epoch 1. */
  predicate Complete(x: seq<Entry>) {
    x != [] && x[|x| - 1].body.previous.None?
  }

  // ---------------------------------------------------------------- rows of accepted snapshots

  lemma {:induction false} EpochRowOf(inp: Inputs, i: nat, n: int)
    requires i <= |inp.epochs|
    ensures EpochRow(inp, i, n).Some? <==> ListedIn(inp, i, n)
    ensures EpochRow(inp, i, n).Some? ==>
      exists j :: 0 <= j < i && inp.epochs[j] == EpochRow(inp, i, n).value && inp.epochs[j].number == n
  {
    if i > 0 {
      EpochRowOf(inp, i - 1, n);
      if inp.epochs[i - 1].number == n {
        assert ListedIn(inp, i, n);
      }
    }
  }

  /** In an accepted snapshot, positions of earlier epochs do not depend on later ones. */
  lemma DigestSettled(c: Codec, inp: Inputs, i: nat, epoch: int, sequence: int)
    requires Accepted(c, inp) && i < |inp.epochs| && epoch < inp.epochs[i].number
    ensures DigestIn(inp, i, epoch, sequence) == DigestAt(inp, epoch, sequence)
  {
    if ListedIn(inp, |inp.epochs|, epoch) {
      var j :| 0 <= j < |inp.epochs| && inp.epochs[j].number == epoch;
      assert EpochOk(c, inp, SourceMap(inp.sources).value, i);
      assert EpochOk(c, inp, SourceMap(inp.sources).value, j);
      assert j < i;
    }
  }

  lemma {:induction false} EntriesAreRows(entries: seq<EntryInput>, epoch: int)
    ensures forall row :: row in EntriesOf(entries, epoch) ==> row in entries
    decreases |entries|
  {
    if entries != [] {
      EntriesAreRows(entries[..|entries| - 1], epoch);
    }
  }

  /** The entry at a verified position, and what it says about the position before it. */
  lemma EntryAt(c: Codec, inp: Inputs, epoch: int, sequence: int) returns (entry: Entry)
    requires Accepted(c, inp) && DigestAt(inp, epoch, sequence).Some?
    ensures epoch >= 1 && Walk(inp, epoch, sequence) != [] && entry == Walk(inp, epoch, sequence)[0]
    ensures entry.digest == DigestAt(inp, epoch, sequence).value && entry.digest == c.hash(entry.body)
    ensures entry.body.chainEpoch == epoch && entry.body.sequence == sequence
    ensures sequence > 1 ==> entry.body.previous.Some? && entry.body.previous == DigestAt(inp, epoch, sequence - 1)
    ensures sequence == 1 ==> Before(c, inp, epoch, entry.body.previous)
    ensures exists row :: row in inp.entries && row.entry == entry
  {
    var entries := EntriesOf(inp.entries, epoch);
    assert entries[sequence - 1] in entries;
    EntriesAreRows(inp.entries, epoch);
    entry := entries[sequence - 1].entry;
    EpochRowOf(inp, |inp.epochs|, epoch);
    var j :| 0 <= j < |inp.epochs| && inp.epochs[j] == EpochRow(inp, |inp.epochs|, epoch).value && inp.epochs[j].number == epoch;
    assert EpochOk(c, inp, SourceMap(inp.sources).value, j);
    assert EntryOk(c, inp, SourceMap(inp.sources).value, inp.epochs[j], entries, sequence - 1);
    if sequence == 1 {
      BeforeEpoch(c, inp, j);
    }
  }

  /** What precedes an epoch: nothing, an entry of the snapshot, or the checkpoint. */
  ghost predicate Before(c: Codec, inp: Inputs, epoch: int, previous: Option<string>) {
    if epoch == 1 then previous.None? && PredecessorOf(inp, epoch).None?
    else
      var p := PredecessorOf(inp, epoch);
      && previous.Some? && p.Some? && 1 <= p.value.0 < epoch
      && (DigestAt(inp, p.value.0, p.value.1).Some? ==> DigestAt(inp, p.value.0, p.value.1) == previous)
      && (DigestAt(inp, p.value.0, p.value.1).None? ==>
            inp.checkpoint == Some(Checkpoint(inp.head.chainVersion, p.value.0, p.value.1, previous.value)))
  }

  lemma BeforeEpoch(c: Codec, inp: Inputs, j: nat)
    requires Accepted(c, inp) && j < |inp.epochs|
    ensures Before(c, inp, inp.epochs[j].number, inp.epochs[j].predecessorDigest)
    ensures EpochRow(inp, |inp.epochs|, inp.epochs[j].number) == Some(inp.epochs[j])
  {
    var e := inp.epochs[j];
    assert EpochOk(c, inp, SourceMap(inp.sources).value, j);
    assert ListedIn(inp, |inp.epochs|, e.number);
    EpochRowOf(inp, |inp.epochs|, e.number);
    var k :| 0 <= k < |inp.epochs| && inp.epochs[k] == EpochRow(inp, |inp.epochs|, e.number).value && inp.epochs[k].number == e.number;
    assert EpochOk(c, inp, SourceMap(inp.sources).value, k);
    assert k == j;
    if e.number != 1 {
      DigestSettled(c, inp, j, e.predecessorEpoch.value, e.predecessorSequence.value);
    }
  }

  // ---------------------------------------------------------------- tamper evidence

  /** Two verified positions with the same digest are the same position with the same entry. */
  lemma SameEntry(c: Codec, a: Inputs, b: Inputs, x: Entry, y: Entry)
    requires !Collide(c, a, b) && (exists row :: row in a.entries && row.entry == x) && (exists row :: row in b.entries && row.entry == y)
    requires x.digest == c.hash(x.body) && y.digest == c.hash(y.body) && x.digest == y.digest
    ensures x == y
  {
  }

  /** From positions with the same digest, two accepted snapshots tell the same history. */
  lemma {:induction false} WalkAgree(c: Codec, a: Inputs, b: Inputs, epoch: int, sequence: int, epoch': int, sequence': int)
    requires !Collide(c, a, b) && Accepted(c, a) && Accepted(c, b)
    requires DigestAt(a, epoch, sequence).Some? && DigestAt(a, epoch, sequence) == DigestAt(b, epoch', sequence')
    ensures epoch == epoch' && sequence == sequence'
    ensures Agree(Walk(a, epoch, sequence), Walk(b, epoch', sequence'))
    decreases epoch, sequence
  {
    var x := EntryAt(c, a, epoch, sequence);
    var y := EntryAt(c, b, epoch', sequence');
    SameEntry(c, a, b, x, y);
    if sequence > 1 {
      WalkAgree(c, a, b, epoch, sequence - 1, epoch, sequence - 1);
      AgreeCons(x, Walk(a, epoch, sequence - 1), Walk(b, epoch, sequence - 1));
    } else if epoch > 1 {
      var p, q := PredecessorOf(a, epoch).value, PredecessorOf(b, epoch).value;
      if DigestAt(a, p.0, p.1).Some? && DigestAt(b, q.0, q.1).Some? {
        WalkAgree(c, a, b, p.0, p.1, q.0, q.1);
        AgreeCons(x, Walk(a, p.0, p.1), Walk(b, q.0, q.1));
      }
    }
  }

  lemma AgreeCons(x: Entry, u: seq<Entry>, v: seq<Entry>)
    requires Agree(u, v)
    ensures Agree([x] + u, [x] + v)
  {
  }

  /** A history ends at genesis or where the snapshot's checkpoint vouches for what is before. */
  lemma {:induction false} WalkEnds(c: Codec, inp: Inputs, epoch: int, sequence: int)
    requires Accepted(c, inp) && DigestAt(inp, epoch, sequence).Some?
    ensures var w := Walk(inp, epoch, sequence);
      w != [] && (Complete(w) ||
        (inp.checkpoint.Some? && w[|w| - 1].body.previous == Some(inp.checkpoint.value.digest) && w[|w| - 1].body.sequence == 1))
    decreases epoch, sequence
  {
    var x := EntryAt(c, inp, epoch, sequence);
    if sequence > 1 {
      WalkEnds(c, inp, epoch, sequence - 1);
    } else if epoch > 1 {
      var p := PredecessorOf(inp, epoch).value;
      if DigestAt(inp, p.0, p.1).Some? {
        WalkEnds(c, inp, p.0, p.1);
      }
    }
  }

  /** Only the last entry of a history can have no predecessor. */
  lemma {:induction false} WalkLinked(c: Codec, inp: Inputs, epoch: int, sequence: int, k: nat)
    requires Accepted(c, inp) && DigestAt(inp, epoch, sequence).Some? && k + 1 < |Walk(inp, epoch, sequence)|
    ensures Walk(inp, epoch, sequence)[k].body.previous.Some?
    ensures Walk(inp, epoch, sequence)[k].body.previous == Some(Walk(inp, epoch, sequence)[k + 1].digest)
    decreases epoch, sequence
  {
    var x := EntryAt(c, inp, epoch, sequence);
    if sequence > 1 {
      var y := EntryAt(c, inp, epoch, sequence - 1);
      if k > 0 {
        WalkLinked(c, inp, epoch, sequence - 1, k - 1);
      }
    } else {
      var p := PredecessorOf(inp, epoch).value;
      var y := EntryAt(c, inp, p.0, p.1);
      if k > 0 {
        WalkLinked(c, inp, p.0, p.1, k - 1);
      }
    }
  }

  /** Where a head's history starts: the position whose digest the head carries. */
  lemma HeadStart(c: Codec, inp: Inputs) returns (epoch: int, sequence: int)
    requires Accepted(c, inp) && inp.head.digest.Some?
    ensures HeadWalk(inp) == Walk(inp, epoch, sequence)
    ensures DigestAt(inp, epoch, sequence).Some? ==> DigestAt(inp, epoch, sequence) == inp.head.digest
    ensures DigestAt(inp, epoch, sequence).None? ==> inp.head.sequence == 0
    ensures DigestAt(inp, epoch, sequence).None? ==>
              inp.checkpoint == Some(Checkpoint(inp.head.chainVersion, epoch, sequence, inp.head.digest.value))
  {
    var last := |inp.epochs| - 1;
    assert EpochOk(c, inp, SourceMap(inp.sources).value, last);
    assert ListedIn(inp, |inp.epochs|, inp.head.chainEpoch);
    if inp.head.sequence >= 1 {
      epoch, sequence := inp.head.chainEpoch, inp.head.sequence;
    } else {
      BeforeEpoch(c, inp, last);
      var p := PredecessorOf(inp, inp.head.chainEpoch).value;
      epoch, sequence := p.0, p.1;
    }
  }

  /** Tamper evidence: two accepted snapshots whose heads carry the same digest agree on every
      entry of the predecessor path, as far back as both reach, and are equal histories if both
      reach genesis; or here are two different bodies with one digest. */
  lemma EqualHeadsEqualHistories(c: Codec, a: Inputs, b: Inputs)
    requires Verify(c, a).Success? && Verify(c, b).Success?
    requires a.head.digest.Some? && a.head.digest == b.head.digest
    ensures Collide(c, a, b)
      || (Agree(HeadWalk(a), HeadWalk(b)) && (Complete(HeadWalk(a)) && Complete(HeadWalk(b)) ==> HeadWalk(a) == HeadWalk(b)))
  {
    VerifyExact(c, a);
    VerifyExact(c, b);
    var e, s := HeadStart(c, a);
    var f, t := HeadStart(c, b);
    if !Collide(c, a, b) && DigestAt(a, e, s).Some? && DigestAt(b, f, t).Some? {
      WalkAgree(c, a, b, e, s, f, t);
      CompleteAgree(c, a, b, e, s);
    }
  }

  lemma CompleteAgree(c: Codec, a: Inputs, b: Inputs, epoch: int, sequence: int)
    requires Accepted(c, a) && Accepted(c, b)
    requires DigestAt(a, epoch, sequence).Some? && DigestAt(b, epoch, sequence).Some?
    requires Agree(Walk(a, epoch, sequence), Walk(b, epoch, sequence))
    ensures Complete(Walk(a, epoch, sequence)) && Complete(Walk(b, epoch, sequence)) ==>
              Walk(a, epoch, sequence) == Walk(b, epoch, sequence)
  {
    var u, v := Walk(a, epoch, sequence), Walk(b, epoch, sequence);
    if Complete(u) && |u| < |v| {
      WalkLinked(c, b, epoch, sequence, |u| - 1);
    }
    if Complete(v) && |v| < |u| {
      WalkLinked(c, a, epoch, sequence, |v| - 1);
    }
  }

  // ---------------------------------------------------------------- rollback evidence

  /** Rollback detection: a snapshot accepted against the checkpoint of an earlier accepted
      head either still holds that exact position, and then the whole history behind the
      checkpoint is the one it was taken from, or has an epoch anchored on it; or here are two
      different bodies with one digest. */
  lemma CheckpointKeepsHistory(c: Codec, was: Inputs, now: Inputs)
    requires Verify(c, was).Success? && Verify(c, now).Success?
    requires BuildCheckpoint(was.head).Success? && now.checkpoint == Some(BuildCheckpoint(was.head).value)
    ensures
      || Collide(c, now, was)
      || (&& DigestAt(now, was.head.chainEpoch, was.head.sequence) == was.head.digest
          && Agree(Walk(now, was.head.chainEpoch, was.head.sequence), HeadWalk(was)))
      || exists i :: 0 <= i < |now.epochs| && Anchors(now, i) && AnchoredOn(now.checkpoint, now.epochs[i])
  {
    VerifyExact(c, was);
    VerifyExact(c, now);
    var cp := now.checkpoint.value;
    if DigestAt(now, cp.chainEpoch, cp.sequence) == Some(cp.digest) {
      var e, s := HeadStart(c, was);
      if !Collide(c, now, was) { WalkAgree(c, now, was, cp.chainEpoch, cp.sequence, e, s); }
    } else {
      var i :| 0 <= i < |now.epochs| && Anchors(now, i);
      assert EpochOk(c, now, SourceMap(now.sources).value, i);
    }
  }
}
