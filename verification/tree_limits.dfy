/**
 The limits on an untrusted JSON value: a worklist that counts nodes and looks at depths. It accepts
 exactly the values within both limits, in whatever order it visits them, and it never takes more
 than one node beyond the limit off its list.
 */
module TreeLimits {
  import opened Wrappers

  /** A value as far as the limits see it: what it holds. */
  datatype Tree = Tree(children: Trees)

  datatype Trees = NoTree | More(first: Tree, rest: Trees)

  datatype Error = NodeLimitExceeded | DepthLimitExceeded

  function Count(t: Tree): nat {
    1 + CountAll(t.children)
  }

  function CountAll(ts: Trees): nat {
    if ts.NoTree? then 0 else Count(ts.first) + CountAll(ts.rest)
  }

  /** The depth of the deepest node, the root being at depth 0. */
  function Height(t: Tree): nat {
    if t.children.NoTree? then 0 else 1 + HeightAll(t.children)
  }

  function HeightAll(ts: Trees): nat {
    if ts.NoTree? then 0
    else
      var a, b := Height(ts.first), HeightAll(ts.rest);
      if a < b then b else a
  }

  type Work = seq<(Tree, nat)>

  function Children(ts: Trees, depth: nat): Work {
    if ts.NoTree? then [] else [(ts.first, depth)] + Children(ts.rest, depth)
  }

  function Without(work: Work, k: nat): Work
    requires k < |work|
  {
    work[..k] + work[k + 1..]
  }

  /** Which entry to take at a step, given how many there are. A stack takes the last one. */
  type Order = (nat, nat) -> nat

  method ValidateTree(value: Tree, maxDepth: nat, maxNodes: nat, order: Order) returns (r: Result<(), Error>, pops: nat)
    ensures r.Success? <==> Count(value) <= maxNodes && Height(value) <= maxDepth
    ensures r == Failure(NodeLimitExceeded) ==> Count(value) > maxNodes
    ensures r == Failure(DepthLimitExceeded) ==> Height(value) > maxDepth
    ensures pops <= maxNodes + 1 && pops <= Count(value)
  {
    var nodes := 0;
    var pending: Work := [(value, 0)];
    pops := 0;
    OneEntry(value, 0, maxDepth);
    while pending != []
      invariant nodes + WorkCount(pending) == Count(value)
      invariant WorkFits(pending, maxDepth) <==> Height(value) <= maxDepth
      invariant pops == nodes <= maxNodes
      decreases WorkCount(pending)
    {
      var k := order(pops, |pending|) % |pending|;
      var item, depth := pending[k].0, pending[k].1;
      TakeOne(pending, k, maxDepth);
      pending := Without(pending, k);
      pops := pops + 1;
      nodes := nodes + 1;
      if nodes > maxNodes {
        return Failure(NodeLimitExceeded), pops;
      }
      if depth > maxDepth {
        return Failure(DepthLimitExceeded), pops;
      }
      AddChildren(pending, item, depth, maxDepth);
      pending := pending + Children(item.children, depth + 1);
    }
    return Success(()), pops;
  }

  // ---------------------------------------------------------------- what the worklist still holds

  function WorkCount(work: Work): nat {
    if work == [] then 0 else Count(work[0].0) + WorkCount(work[1..])
  }

  predicate WorkFits(work: Work, maxDepth: nat) {
    forall i :: 0 <= i < |work| ==> work[i].1 + Height(work[i].0) <= maxDepth
  }

  lemma OneEntry(t: Tree, depth: nat, maxDepth: nat)
    ensures var work: Work := [(t, depth)];
      WorkCount(work) == Count(t) && (WorkFits(work, maxDepth) <==> depth + Height(t) <= maxDepth)
  {
    var work: Work := [(t, depth)];
    assert work[0] == (t, depth) && work[1..] == [] && WorkCount(work[1..]) == 0;
  }

  lemma {:induction false} WorkConcat(a: Work, b: Work, maxDepth: nat)
    ensures WorkCount(a + b) == WorkCount(a) + WorkCount(b)
    ensures WorkFits(a + b, maxDepth) <==> WorkFits(a, maxDepth) && WorkFits(b, maxDepth)
    decreases |a|
  {
    if a == [] {
      assert a + b == b;
    } else {
      assert (a + b)[1..] == a[1..] + b;
      WorkConcat(a[1..], b, maxDepth);
      assert forall i :: 0 <= i < |a| ==> (a + b)[i] == a[i];
      assert forall i :: 0 <= i < |b| ==> (a + b)[|a| + i] == b[i];
    }
  }

  lemma TakeOne(work: Work, k: nat, maxDepth: nat)
    requires k < |work|
    ensures WorkCount(work) == WorkCount(Without(work, k)) + Count(work[k].0)
    ensures WorkFits(work, maxDepth) <==> WorkFits(Without(work, k), maxDepth) && work[k].1 + Height(work[k].0) <= maxDepth
  {
    var a, b := work[..k], work[k + 1..];
    SplitAround(work, k);
    TakeBetween(a, work[k].0, work[k].1, b, maxDepth);
  }

  lemma SplitAround<T>(s: seq<T>, k: nat)
    requires k < |s|
    ensures s == s[..k] + ([s[k]] + s[k + 1..])
  {
    assert s[k..] == [s[k]] + s[k + 1..];
    assert s == s[..k] + s[k..];
  }

  lemma TakeBetween(a: Work, t: Tree, depth: nat, b: Work, maxDepth: nat)
    ensures WorkCount(a + ([(t, depth)] + b)) == WorkCount(a + b) + Count(t)
    ensures WorkFits(a + ([(t, depth)] + b), maxDepth) <==> WorkFits(a + b, maxDepth) && depth + Height(t) <= maxDepth
  {
    OneEntry(t, depth, maxDepth);
    WorkConcat(a, [(t, depth)] + b, maxDepth);
    WorkConcat([(t, depth)], b, maxDepth);
    WorkConcat(a, b, maxDepth);
  }

  lemma {:induction false} ChildrenWork(ts: Trees, depth: nat, maxDepth: nat)
    ensures WorkCount(Children(ts, depth)) == CountAll(ts)
    ensures WorkFits(Children(ts, depth), maxDepth) <==> ts.NoTree? || depth + HeightAll(ts) <= maxDepth
    decreases ts
  {
    if ts.More? {
      ChildrenWork(ts.rest, depth, maxDepth);
      OneEntry(ts.first, depth, maxDepth);
      WorkConcat([(ts.first, depth)], Children(ts.rest, depth), maxDepth);
    }
  }

  lemma AddChildren(work: Work, item: Tree, depth: nat, maxDepth: nat)
    requires depth <= maxDepth
    ensures var all := work + Children(item.children, depth + 1);
      && 1 + WorkCount(all) == WorkCount(work) + Count(item)
      && (WorkFits(all, maxDepth) <==> WorkFits(work, maxDepth) && depth + Height(item) <= maxDepth)
  {
    ChildrenWork(item.children, depth + 1, maxDepth);
    WorkConcat(work, Children(item.children, depth + 1), maxDepth);
  }
}
