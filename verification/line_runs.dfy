/**
 The run-length format of repeated lines. While it expands the runs the decoder keeps a running
 bound on the bytes and stops as soon as the bound is too large; the cut-off is exact.

 Lines and texts are their UTF-8 bytes.
 */
module LineRuns {
  import opened Wrappers

  type Byte = b: int | 0 <= b < 256

  const LF: Byte := 10
  const MAX_ROWS: nat := 4096

  type Line = seq<Byte>

  /** An entry of the list of runs: a line and how often it repeats, or something else. */
  datatype Run = Run(line: Line, count: int) | Malformed

  datatype Error = InvalidLineRuns | RowsExceeded | BlockTooLarge

  // ---------------------------------------------------------------- expanding first

  predicate RunOk(r: Run) {
    r.Run? && r.count > 0
  }

  predicate AllOk(runs: seq<Run>) {
    forall i :: 0 <= i < |runs| ==> RunOk(runs[i])
  }

  function Repeat(line: Line, count: nat): seq<Line> {
    seq(count, _ => line)
  }

  /** All the lines the runs stand for. */
  function Expand(runs: seq<Run>): seq<Line>
    requires AllOk(runs)
  {
    if runs == [] then [] else Repeat(runs[0].line, runs[0].count) + Expand(runs[1..])
  }

  function Join(lines: seq<Line>): seq<Byte> {
    if lines == [] then []
    else if |lines| == 1 then lines[0]
    else lines[0] + [LF] + Join(lines[1..])
  }

  /** The bytes of the lines, each with a line feed. */
  function Bytes(lines: seq<Line>): nat {
    if lines == [] then 0 else |lines[0]| + 1 + Bytes(lines[1..])
  }

  lemma {:induction false} JoinBytes(lines: seq<Line>)
    requires lines != []
    ensures |Join(lines)| + 1 == Bytes(lines)
    decreases |lines|
  {
    if |lines| == 1 {
      assert lines[1..] == [];
    } else {
      JoinBytes(lines[1..]);
    }
  }

  lemma {:induction false} BytesConcat(a: seq<Line>, b: seq<Line>)
    ensures Bytes(a + b) == Bytes(a) + Bytes(b)
    decreases |a|
  {
    if a == [] {
      assert a + b == b;
    } else {
      assert (a + b)[1..] == a[1..] + b;
      BytesConcat(a[1..], b);
    }
  }

  lemma {:induction false} RepeatBytes(line: Line, count: nat)
    ensures Bytes(Repeat(line, count)) == |line| * count + count
  {
    if count > 0 {
      var all := Repeat(line, count);
      assert all[1..] == Repeat(line, count - 1);
      RepeatBytes(line, count - 1);
      assert |line| * count == |line| * (count - 1) + |line|;
    }
  }

  lemma {:induction false} ExpandConcat(a: seq<Run>, b: seq<Run>)
    requires AllOk(a) && AllOk(b)
    ensures AllOk(a + b) && Expand(a + b) == Expand(a) + Expand(b)
    decreases |a|
  {
    if a == [] {
      assert a + b == b;
    } else {
      assert (a + b)[1..] == a[1..] + b;
      ExpandConcat(a[1..], b);
      assert Repeat(a[0].line, a[0].count) + (Expand(a[1..]) + Expand(b)) == Expand(a) + Expand(b);
    }
  }

  lemma ExpandNext(runs: seq<Run>, i: nat)
    requires i < |runs| && AllOk(runs[..i]) && RunOk(runs[i])
    ensures AllOk(runs[..i + 1]) && Expand(runs[..i + 1]) == Expand(runs[..i]) + Repeat(runs[i].line, runs[i].count)
    ensures Bytes(Expand(runs[..i + 1])) == Bytes(Expand(runs[..i])) + |runs[i].line| * runs[i].count + runs[i].count
  {
    assert runs[..i + 1] == runs[..i] + [runs[i]];
    assert [runs[i]][1..] == [];
    ExpandConcat(runs[..i], [runs[i]]);
    assert Expand([runs[i]]) == Repeat(runs[i].line, runs[i].count) + [];
    BytesConcat(Expand(runs[..i]), Repeat(runs[i].line, runs[i].count));
    RepeatBytes(runs[i].line, runs[i].count);
  }

  /** A part of the runs has no more rows and no more bytes than all of them. */
  lemma PartIsLess(runs: seq<Run>, i: nat)
    requires i <= |runs| && AllOk(runs)
    ensures |Expand(runs[..i])| <= |Expand(runs)| && Bytes(Expand(runs[..i])) <= Bytes(Expand(runs))
  {
    assert runs == runs[..i] + runs[i..];
    ExpandConcat(runs[..i], runs[i..]);
    BytesConcat(Expand(runs[..i]), Expand(runs[i..]));
  }

  // ---------------------------------------------------------------- cutting off early

  /** Decode the runs. A list that decodes is well-formed, within the rows and within the bytes;
      and of well-formed runs within the rows, exactly those whose joined text is too large are cut
      off for their size. */
  method DecodeLineRuns(runs: seq<Run>, maxBytes: nat) returns (r: Result<seq<Byte>, Error>)
    ensures r.Success? <==>
      1 <= |runs| <= 4096 && AllOk(runs) && |Expand(runs)| <= 4096 && |Join(Expand(runs))| <= maxBytes
    ensures r.Success? ==> r.value == Join(Expand(runs))
    ensures 1 <= |runs| <= 4096 && AllOk(runs) && |Expand(runs)| <= 4096 ==>
      (r == Failure(BlockTooLarge) <==> |Join(Expand(runs))| > maxBytes)
  {
    if !(1 <= |runs| <= MAX_ROWS) {
      return Failure(InvalidLineRuns);
    }
    var lines: seq<Line> := [];
    var bound := 0;
    for i := 0 to |runs|
      invariant AllOk(runs[..i]) && lines == Expand(runs[..i]) && bound == Bytes(lines)
      invariant |lines| <= MAX_ROWS && bound <= maxBytes + 1
      invariant i <= |lines|
    {
      var run := runs[i];
      if !run.Run? || run.count <= 0 {
        return Failure(InvalidLineRuns);
      }
      ExpandNext(runs, i);
      if AllOk(runs) { PartIsLess(runs, i + 1); }
      if |lines| + run.count > MAX_ROWS {
        return Failure(RowsExceeded);
      }
      bound := bound + (|run.line| * run.count + run.count);
      if bound > maxBytes + 1 {
        if AllOk(runs) { JoinBytes(Expand(runs)); }
        return Failure(BlockTooLarge);
      }
      lines := lines + Repeat(run.line, run.count);
    }
    assert runs[..|runs|] == runs;
    JoinBytes(lines);
    return Success(Join(lines));
  }
}
