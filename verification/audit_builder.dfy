/**
 What the builder can be asked for: which act may follow a built history, and that valid events
 can be appended to it without end.
 */
module AuditBuilder {
  import opened Wrappers
  import opened AuditChain
  import opened AuditAcceptance
  import opened AuditHistory

  /** An earlier act stored an event under the key. */
  predicate KeyUsed(acts: seq<Act>, key: Source) {
    exists i :: 0 <= i < |acts| && acts[i].Append? && acts[i].key == key
  }

  lemma KeyUsedNext(acts: seq<Act>, act: Act, key: Source)
    ensures KeyUsed(acts + [act], key) <==> KeyUsed(acts, key) || (act.Append? && act.key == key)
  {
    var all := acts + [act];
    if KeyUsed(acts, key) {
      var i :| 0 <= i < |acts| && acts[i].Append? && acts[i].key == key;
      assert all[i] == acts[i];
    }
    if act.Append? && act.key == key { assert all[|acts|] == act; }
    if KeyUsed(all, key) {
      var i :| 0 <= i < |all| && all[i].Append? && all[i].key == key;
      assert i < |acts| ==> acts[i] == all[i];
    }
  }

  lemma {:induction false} BuildNext(c: Codec, organization: string, acts: seq<Act>, act: Act)
    ensures var before := Build(c, organization, acts);
      Build(c, organization, acts + [act]) == if before.None? then None else Perform(c, before.value, act)
  {
    assert (acts + [act])[..|acts|] == acts;
  }

  /** The source events of a built history are those of its appends. */
  lemma {:induction false} SourcesAreActs(c: Codec, organization: string, acts: seq<Act>)
    requires Build(c, organization, acts).Some?
    ensures var inp := Build(c, organization, acts).value;
      && inp.organization == organization && SourceMap(inp.sources).Some?
      && forall key :: key in SourceMap(inp.sources).value <==> KeyUsed(acts, key)
    decreases |acts|
  {
    if acts != [] {
      var front, act := acts[..|acts| - 1], acts[|acts| - 1];
      assert acts == front + [act];
      SourcesAreActs(c, organization, front);
      forall key
        ensures KeyUsed(acts, key) <==> KeyUsed(front, key) || (act.Append? && act.key == key)
      {
        KeyUsedNext(front, act, key);
      }
      var before := Build(c, organization, front).value;
      if act.Append? { SourceAppend(before.sources, act.key, act.event); }
    } else {
      assert SourceMap([]) == Some(map[]);
    }
  }

  /** An event can be appended to a built history exactly if it is of the organization, valid in its
      form (with a source or without) and its key is fresh. It becomes the next entry, linked to the
      head before, and the new head names it. */
  lemma {:induction false} AppendExactly(c: Codec, organization: string, acts: seq<Act>, event: Event, source: Option<Source>, key: Source)
    requires (forall b: Body :: IsDigest(c.hash(b))) && Build(c, organization, acts).Some?
    ensures Build(c, organization, acts + [Append(event, source, key)]).Some? <==>
      event.organization == organization && c.valid(event, source) && !KeyUsed(acts, key)
    ensures Build(c, organization, acts + [Append(event, source, key)]).Some? ==>
      var before := Build(c, organization, acts).value;
      var after := Build(c, organization, acts + [Append(event, source, key)]).value;
      var body := Body(organization, CHAIN_VERSION, before.head.chainEpoch, before.head.sequence + 1, before.head.digest, source, event);
      && after.entries == before.entries + [EntryInput(before.head.chainEpoch, key, Entry(body, c.hash(body)))]
      && after.sources == before.sources + [(key, event)] && after.epochs == before.epochs
      && after.head == Head(organization, CHAIN_VERSION, before.head.chainEpoch, before.head.sequence + 1, Some(c.hash(body)))
  {
    BuildNext(c, organization, acts, Append(event, source, key));
    BuiltIsAccepted(c, organization, acts);
    HeadIsOwn(c, organization, acts);
    SourcesAreActs(c, organization, acts);
    SourceAppend(Build(c, organization, acts).value.sources, key, event);
  }

  lemma {:induction false} HeadIsOwn(c: Codec, organization: string, acts: seq<Act>)
    requires Build(c, organization, acts).Some?
    ensures var inp := Build(c, organization, acts).value;
      inp.head.organization == organization && inp.head.chainVersion == CHAIN_VERSION
    decreases |acts|
  {
    if acts != [] {
      HeadIsOwn(c, organization, acts[..|acts| - 1]);
    }
  }

  /** An epoch can be opened on a built history exactly if it is a restore or a migration, its number
      is higher than the last, and the position it names holds an entry, whose digest it then carries. */
  lemma {:induction false} OpenExactly(c: Codec, organization: string, acts: seq<Act>, number: int, reason: Reason, epoch: int, sequence: int)
    requires Build(c, organization, acts).Some?
    ensures var before := Build(c, organization, acts).value; var after := Build(c, organization, acts + [Open(number, reason, epoch, sequence)]);
      && (after.Some? <==> (reason.Restore? || reason.Migration?) && number > before.head.chainEpoch
                           && DigestAt(before, epoch, sequence).Some?)
      && (after.Some? ==>
            && after.value.entries == before.entries && after.value.sources == before.sources
            && after.value.epochs == before.epochs + [Epoch(CHAIN_VERSION, number, reason, Some(epoch), Some(sequence), DigestAt(before, epoch, sequence))]
            && after.value.head == Head(organization, CHAIN_VERSION, number, 0, DigestAt(before, epoch, sequence)))
  {
    BuildNext(c, organization, acts, Open(number, reason, epoch, sequence));
    HeadIsOwn(c, organization, acts);
  }

  /** Valid events of the organization, in either form, each under a key of its own. */
  predicate ValidAppends(c: Codec, organization: string, acts: seq<Act>, from: nat)
    requires from <= |acts|
  {
    forall i :: from <= i < |acts| ==>
      && acts[i].Append? && acts[i].event.organization == organization && c.valid(acts[i].event, acts[i].source)
      && !KeyUsed(acts[..i], acts[i].key)
  }

  lemma {:induction false} ValidFront(c: Codec, organization: string, acts: seq<Act>, from: nat, front: seq<Act>, act: Act)
    requires from < |acts| && ValidAppends(c, organization, acts, from)
    requires front == acts[..|acts| - 1] && act == acts[|acts| - 1]
    ensures acts == front + [act] && front[..from] == acts[..from] && ValidAppends(c, organization, front, from)
    ensures act == Append(act.event, act.source, act.key) && act.event.organization == organization
    ensures c.valid(act.event, act.source) && !KeyUsed(front, act.key)
  {
    forall i | from <= i < |front|
      ensures front[i] == acts[i] && front[..i] == acts[..i]
    {
    }
  }

  /** Any number of valid events can be appended to every built history; each is stored at the next
      sequence of the head's epoch. */
  lemma {:induction false} AppendsBuild(c: Codec, organization: string, acts: seq<Act>, from: nat)
    requires forall b: Body :: IsDigest(c.hash(b))
    requires from <= |acts| && ValidAppends(c, organization, acts, from) && Build(c, organization, acts[..from]).Some?
    ensures Build(c, organization, acts).Some?
    ensures var before, after := Build(c, organization, acts[..from]).value, Build(c, organization, acts).value;
      && |after.entries| == |before.entries| + (|acts| - from) && before.entries <= after.entries
      && after.head.chainEpoch == before.head.chainEpoch && after.head.sequence == before.head.sequence + (|acts| - from)
    decreases |acts|
  {
    if from == |acts| {
      assert acts[..from] == acts;
    } else {
      var front, act := acts[..|acts| - 1], acts[|acts| - 1];
      ValidFront(c, organization, acts, from, front, act);
      AppendsBuild(c, organization, front, from);
      AppendExactly(c, organization, front, act.event, act.source, act.key);
    }
  }
}
