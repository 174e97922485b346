/**
 The check of a parsed provider report: a worklist over its containers and strings, with limits on
 depth and on the number of members. After the byte scan its depth limit never applies.
 */
module DepthWorklist {
  import opened Wrappers
  import opened DepthScan

  datatype Error = LimitExceeded | TooDeep | InvalidSource

  /** Can the string be encoded as UTF-8? */
  type Encodable = seq<Unit> -> bool

  // ---------------------------------------------------------------- what the check is about

  /** The members of all containers: list items, and keys with their values. */
  function Members(j: Json): nat {
    match j
    case Scalar(_) => 0
    case Str(_) => 0
    case List(items, _) => ItemsMembers(items)
    case Object(members, _) => MembersMembers(members)
  }

  function ItemsMembers(items: Items): nat {
    if items.NoItem? then 0 else 1 + Members(items.value) + ItemsMembers(items.rest)
  }

  function MembersMembers(members: DepthScan.Members): nat {
    if members.NoMember? then 0 else 1 + Members(members.value) + MembersMembers(members.rest)
  }

  predicate AllEncodable(e: Encodable, j: Json) {
    match j
    case Scalar(_) => true
    case Str(units) => e(units)
    case List(items, _) => ItemsEncodable(e, items)
    case Object(members, _) => MembersEncodable(e, members)
  }

  predicate ItemsEncodable(e: Encodable, items: Items) {
    items.Item? ==> AllEncodable(e, items.value) && ItemsEncodable(e, items.rest)
  }

  predicate MembersEncodable(e: Encodable, members: DepthScan.Members) {
    members.Member? ==> e(members.key) && AllEncodable(e, members.value) && MembersEncodable(e, members.rest)
  }

  // ---------------------------------------------------------------- the worklist

  type Depth = d: nat | d >= 1 witness 1

  type Work = seq<(Json, Depth)>

  function Deeper(d: Depth): Depth {
    d + 1
  }

  function ItemsWork(items: Items, depth: Depth): Work {
    if items.NoItem? then [] else [(items.value, depth)] + ItemsWork(items.rest, depth)
  }

  function KeysWork(members: DepthScan.Members, depth: Depth): Work {
    if members.NoMember? then [] else [(Str(members.key), depth)] + KeysWork(members.rest, depth)
  }

  function ValuesWork(members: DepthScan.Members, depth: Depth): Work {
    if members.NoMember? then [] else [(members.value, depth)] + ValuesWork(members.rest, depth)
  }

  function ItemCount(items: Items): nat {
    if items.NoItem? then 0 else 1 + ItemCount(items.rest)
  }

  function MemberCount(members: DepthScan.Members): nat {
    if members.NoMember? then 0 else 1 + MemberCount(members.rest)
  }

  predicate IsContainer(j: Json) {
    j.List? || j.Object?
  }

  /** Check a parsed report. The last entry of the list is taken first. */
  method CheckReport(encodable: Encodable, value: Json) returns (r: Result<Json, Error>)
    ensures r.Success? <==> Nesting(value) <= 16 && Members(value) <= 65536 && AllEncodable(encodable, value)
    ensures r.Success? ==> r.value == value
    ensures r == Failure(TooDeep) ==> Nesting(value) > 16
    ensures r == Failure(LimitExceeded) ==> Members(value) > 65536
    ensures r == Failure(InvalidSource) ==> !AllEncodable(encodable, value)
  {
    var pending: Work := [(value, 1)];
    var members := 0;
    StartWork(encodable, value);
    while pending != []
      invariant members + WorkMembers(pending) == Members(value)
      invariant members <= JSON_MEMBERS
      invariant WorkFits(pending) <==> Nesting(value) <= JSON_DEPTH
      invariant WorkEncodable(encodable, pending) <==> AllEncodable(encodable, value)
      decreases WorkSize(pending)
    {
      var n := |pending| - 1;
      var item, depth := pending[n].0, pending[n].1;
      TakeLast(encodable, pending);
      pending := pending[..n];
      if depth > JSON_DEPTH && IsContainer(item) {
        return Failure(TooDeep);
      }
      match item {
        case Object(entries, _) =>
          members := members + MemberCount(entries);
          AddMembers(encodable, pending, entries, Deeper(depth));
          pending := pending + KeysWork(entries, Deeper(depth)) + ValuesWork(entries, Deeper(depth));
        case List(items, _) =>
          members := members + ItemCount(items);
          AddItems(encodable, pending, items, Deeper(depth));
          pending := pending + ItemsWork(items, Deeper(depth));
        case Str(units) =>
          if !encodable(units) {
            return Failure(InvalidSource);
          }
        case Scalar(_) =>
      }
      if members > JSON_MEMBERS {
        return Failure(LimitExceeded);
      }
    }
    return Success(value);
  }

  // ---------------------------------------------------------------- what the worklist still holds

  function Size(j: Json): nat {
    match j
    case Scalar(_) => 1
    case Str(_) => 1
    case List(items, _) => 1 + ItemsSize(items)
    case Object(members, _) => 1 + MembersSize(members)
  }

  function ItemsSize(items: Items): nat {
    if items.NoItem? then 0 else Size(items.value) + ItemsSize(items.rest)
  }

  function MembersSize(members: DepthScan.Members): nat {
    if members.NoMember? then 0 else 1 + Size(members.value) + MembersSize(members.rest)
  }

  function WorkSize(work: Work): nat {
    if work == [] then 0 else WorkSize(work[..|work| - 1]) + Size(work[|work| - 1].0)
  }

  function WorkMembers(work: Work): nat {
    if work == [] then 0 else WorkMembers(work[..|work| - 1]) + Members(work[|work| - 1].0)
  }

  /** An entry at a depth: a container there is nested within the limit with all it holds. */
  predicate Fits(j: Json, depth: Depth) {
    IsContainer(j) ==> depth - 1 + Nesting(j) <= JSON_DEPTH
  }

  predicate WorkFits(work: Work) {
    forall i :: 0 <= i < |work| ==> Fits(work[i].0, work[i].1)
  }

  predicate WorkEncodable(e: Encodable, work: Work) {
    forall i :: 0 <= i < |work| ==> AllEncodable(e, work[i].0)
  }

  lemma StartWork(e: Encodable, value: Json)
    ensures var work: Work := [(value, 1)];
      && WorkMembers(work) == Members(value)
      && (WorkFits(work) <==> Nesting(value) <= JSON_DEPTH)
      && (WorkEncodable(e, work) <==> AllEncodable(e, value))
  {
    var work: Work := [(value, 1)];
    assert work[..0] == [] && WorkMembers(work[..0]) == 0;
    assert work[0] == (value, 1);
  }

  lemma TakeLast(e: Encodable, work: Work)
    requires work != []
    ensures var last := work[|work| - 1]; var rest := work[..|work| - 1];
      && WorkMembers(work) == WorkMembers(rest) + Members(last.0)
      && WorkSize(work) == WorkSize(rest) + Size(last.0) && Size(last.0) >= 1
      && (WorkFits(work) <==> WorkFits(rest) && Fits(last.0, last.1))
      && (WorkEncodable(e, work) <==> WorkEncodable(e, rest) && AllEncodable(e, last.0))
  {
    var rest := work[..|work| - 1];
    assert work == rest + [work[|work| - 1]];
  }

  lemma {:induction false} AddWork(e: Encodable, work: Work, more: Work)
    ensures WorkMembers(work + more) == WorkMembers(work) + WorkMembers(more)
    ensures WorkSize(work + more) == WorkSize(work) + WorkSize(more)
    ensures WorkFits(work + more) <==> WorkFits(work) && WorkFits(more)
    ensures WorkEncodable(e, work + more) <==> WorkEncodable(e, work) && WorkEncodable(e, more)
    decreases |more|
  {
    if more == [] {
      assert work + more == work;
    } else {
      var n := |more| - 1;
      assert (work + more)[..|work| + n] == work + more[..n];
      AddWork(e, work, more[..n]);
      TakeLast(e, work + more);
      TakeLast(e, more);
    }
  }

  lemma {:induction false} ItemsWorkIs(e: Encodable, items: Items, depth: Depth)
    ensures var work := ItemsWork(items, depth);
      && ItemCount(items) + WorkMembers(work) == ItemsMembers(items)
      && WorkSize(work) == ItemsSize(items)
      && (WorkFits(work) <==> depth - 1 + ItemsNesting(items) <= JSON_DEPTH || ItemsNesting(items) == 0)
      && (WorkEncodable(e, work) <==> ItemsEncodable(e, items))
    decreases items
  {
    if items.Item? {
      ItemsWorkIs(e, items.rest, depth);
      OneWork(e, items.value, depth);
      AddWork(e, [(items.value, depth)], ItemsWork(items.rest, depth));
    }
  }

  lemma OneWork(e: Encodable, j: Json, depth: Depth)
    ensures var work: Work := [(j, depth)];
      && WorkMembers(work) == Members(j) && WorkSize(work) == Size(j)
      && (WorkFits(work) <==> Fits(j, depth)) && (WorkEncodable(e, work) <==> AllEncodable(e, j))
    ensures !IsContainer(j) ==> Nesting(j) == 0
    ensures IsContainer(j) ==> Nesting(j) >= 1
  {
    var work: Work := [(j, depth)];
    assert work[..0] == [] && WorkMembers(work[..0]) == 0 && WorkSize(work[..0]) == 0;
    assert work[0] == (j, depth);
  }

  lemma {:induction false} KeysWorkIs(e: Encodable, members: DepthScan.Members, depth: Depth)
    ensures var work := KeysWork(members, depth);
      && WorkMembers(work) == 0 && WorkSize(work) == MemberCount(members) && WorkFits(work)
      && (WorkEncodable(e, work) <==> KeysEncodable(e, members))
    decreases members
  {
    if members.Member? {
      KeysWorkIs(e, members.rest, depth);
      OneWork(e, Str(members.key), depth);
      AddWork(e, [(Str(members.key), depth)], KeysWork(members.rest, depth));
    }
  }

  predicate KeysEncodable(e: Encodable, members: DepthScan.Members) {
    members.Member? ==> e(members.key) && KeysEncodable(e, members.rest)
  }

  predicate ValuesEncodable(e: Encodable, members: DepthScan.Members) {
    members.Member? ==> AllEncodable(e, members.value) && ValuesEncodable(e, members.rest)
  }

  lemma {:induction false} ValuesWorkIs(e: Encodable, members: DepthScan.Members, depth: Depth)
    ensures var work := ValuesWork(members, depth);
      && MemberCount(members) + WorkMembers(work) == MembersMembers(members)
      && MemberCount(members) + WorkSize(work) == MembersSize(members)
      && (WorkFits(work) <==> depth - 1 + MembersNesting(members) <= JSON_DEPTH || MembersNesting(members) == 0)
      && (WorkEncodable(e, work) <==> ValuesEncodable(e, members))
    decreases members
  {
    if members.Member? {
      ValuesWorkIs(e, members.rest, depth);
      OneWork(e, members.value, depth);
      AddWork(e, [(members.value, depth)], ValuesWork(members.rest, depth));
    }
  }

  lemma {:induction false} MembersEncodableIs(e: Encodable, members: DepthScan.Members)
    ensures MembersEncodable(e, members) <==> KeysEncodable(e, members) && ValuesEncodable(e, members)
    decreases members
  {
    if members.Member? { MembersEncodableIs(e, members.rest); }
  }

  lemma AddItems(e: Encodable, work: Work, items: Items, depth: Depth)
    requires 2 <= depth <= JSON_DEPTH + 1
    ensures var all := work + ItemsWork(items, depth);
      && ItemCount(items) + WorkMembers(all) == WorkMembers(work) + ItemsMembers(items)
      && WorkSize(all) == WorkSize(work) + ItemsSize(items)
      && (WorkFits(all) <==> WorkFits(work) && depth - 2 + (1 + ItemsNesting(items)) <= JSON_DEPTH)
      && (WorkEncodable(e, all) <==> WorkEncodable(e, work) && ItemsEncodable(e, items))
  {
    ItemsWorkIs(e, items, depth);
    AddWork(e, work, ItemsWork(items, depth));
  }

  lemma AddMembers(e: Encodable, work: Work, members: DepthScan.Members, depth: Depth)
    requires 2 <= depth <= JSON_DEPTH + 1
    ensures var all := work + KeysWork(members, depth) + ValuesWork(members, depth);
      && MemberCount(members) + WorkMembers(all) == WorkMembers(work) + MembersMembers(members)
      && WorkSize(all) == WorkSize(work) + MembersSize(members)
      && (WorkFits(all) <==> WorkFits(work) && depth - 2 + (1 + MembersNesting(members)) <= JSON_DEPTH)
      && (WorkEncodable(e, all) <==> WorkEncodable(e, work) && MembersEncodable(e, members))
  {
    KeysWorkIs(e, members, depth);
    ValuesWorkIs(e, members, depth);
    AddWork(e, work, KeysWork(members, depth));
    AddWork(e, work + KeysWork(members, depth), ValuesWork(members, depth));
    MembersEncodableIs(e, members);
  }

  // ---------------------------------------------------------------- scan and check together

  /** Decode a report: scan its bytes, parse them, check the value. */
  method DecodeReport(encodable: Encodable, parse: seq<Byte> -> Option<Json>, data: seq<Byte>) returns (r: Result<Json, Error>)
    ensures r.Success? <==>
      && 1 <= |data| <= 1048576 && Scan(START, data).peak <= 16 && parse(data).Some? && parse(data).value.Object?
      && Nesting(parse(data).value) <= 16 && Members(parse(data).value) <= 65536
      && AllEncodable(encodable, parse(data).value)
    ensures r.Success? ==> parse(data) == Some(r.value)
    ensures r == Failure(TooDeep) ==> parse(data).Some? && Nesting(parse(data).value) > 16 && Scan(START, data).peak <= 16
  {
    if !(1 <= |data| <= PAGE_BYTES) {
      return Failure(LimitExceeded);
    }
    var ok := ScanDepth(data);
    if !ok {
      return Failure(LimitExceeded);
    }
    var value := parse(data);
    if value.None? || !value.value.Object? {
      return Failure(InvalidSource);
    }
    r := CheckReport(encodable, value.value);
  }

  /** The text is that of the document the parser finds in it, with blank space around it. */
  ghost predicate ParsesText(parse: seq<Byte> -> Option<Json>, data: seq<Byte>) {
    parse(data).Some? ==> exists before, after ::
      AllNeutral(before) && Ok(parse(data).value) && AllNeutral(after) && data == before + (Print(parse(data).value) + after)
  }

  /** Where the parser gives back the document of the text, the scan decides alone: a report is
      accepted exactly when its nesting, members and strings allow, and what passed the scan never
      fails the later depth check. */
  lemma DepthCheckNeverFires(parse: seq<Byte> -> Option<Json>, data: seq<Byte>)
    requires ParsesText(parse, data) && parse(data).Some?
    ensures Scan(START, data).peak == Nesting(parse(data).value)
    ensures !(Scan(START, data).peak <= JSON_DEPTH && Nesting(parse(data).value) > JSON_DEPTH)
  {
    var before, after :| AllNeutral(before) && Ok(parse(data).value) && AllNeutral(after)
                         && data == before + (Print(parse(data).value) + after);
    ScanExact(before, parse(data).value, after);
  }
}
