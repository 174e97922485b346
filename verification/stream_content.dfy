/**
 What the rewriter puts out, read off the stream line by line: which lines are events, what takes
 their place, which frames go out, and where frames and lines begin and end.
 */
module StreamContent {
  import opened Wrappers
  import opened StreamRewriter

  // ---------------------------------------------------------------- events

  /** Tab, line feed, vertical tab, form feed, carriage return and space. */
  predicate IsWhite(b: Byte) {
    b in {9, 10, 11, 12, 13, 32}
  }

  /** What stands before `i` and from `j` on is white space. */
  predicate Padded(b: seq<Byte>, i: nat, j: nat) {
    && i <= j <= |b|
    && (forall k :: 0 <= k < i ==> IsWhite(b[k])) && (forall k :: j <= k < |b| ==> IsWhite(b[k]))
  }

  /** White space goes from both ends, and nothing else. */
  lemma {:induction false} StripExact(b: seq<Byte>) returns (i: nat, j: nat)
    ensures Padded(b, i, j) && Strip(b) == b[i..j]
    ensures i < j ==> !IsWhite(b[i]) && !IsWhite(b[j - 1])
    decreases |b|
  {
    if b != [] && Space(b[0]) {
      i, j := StripExact(b[1..]);
      assert b[1..][i..j] == b[i + 1..j + 1];
      assert forall k :: 0 < k < |b| ==> b[k] == b[1..][k - 1];
      i, j := i + 1, j + 1;
    } else if b != [] && Space(b[|b| - 1]) {
      i, j := StripExact(b[..|b| - 1]);
      assert b[..|b| - 1][i..j] == b[i..j];
    } else {
      i, j := 0, |b|;
      assert b[0..|b|] == b;
    }
  }

  /** The payload is the end marker between white space. */
  ghost predicate IsDone(payload: seq<Byte>) {
    exists i: nat, j: nat :: Padded(payload, i, j) && payload[i..j] == [91, 68, 79, 78, 69, 93]
  }

  /** The line starts with `data:` and is not the end marker. */
  ghost predicate IsEvent(line: seq<Byte>) {
    |line| >= 5 && line[..5] == [100, 97, 116, 97, 58] && !IsDone(line[5..])
  }

  lemma DoneIsStripped(payload: seq<Byte>)
    ensures IsDone(payload) <==> Strip(payload) == DONE
  {
    var i, j := StripExact(payload);
    if IsDone(payload) {
      var a: nat, b: nat :| Padded(payload, a, b) && payload[a..b] == DONE;
      assert payload[a] == payload[a..b][0] && payload[b - 1] == payload[a..b][5];
      assert !IsWhite(payload[a]) && !IsWhite(payload[b - 1]);
      assert i == a && j == b;
    }
  }

  lemma EventIsData(line: seq<Byte>)
    ensures IsEvent(line) <==> IsData(line)
  {
    if |line| >= 5 {
      DoneIsStripped(line[5..]);
      assert DATA <= line <==> line[..5] == DATA;
    }
  }

  // ---------------------------------------------------------------- lines of a frame

  /** What the handler says of line `i`, if it is an event, after the lines before it. */
  ghost function Answer(ev: Handler, kinds: Kinds, lines: seq<seq<Byte>>, i: nat): Option<Outcome>
    requires i < |lines|
    decreases i, 1
  {
    if IsEvent(lines[i]) then Some(ev(KindsBefore(ev, kinds, lines, i), lines[i][5..])) else None
  }

  /** The kinds known before line `i`: those the last event before it left. */
  ghost function KindsBefore(ev: Handler, kinds: Kinds, lines: seq<seq<Byte>>, i: nat): Kinds
    requires i <= |lines|
    decreases i, 0
  {
    if i == 0 then kinds
    else
      match Answer(ev, kinds, lines, i - 1)
      case Some(Emit(k, _)) => k
      case _ => KindsBefore(ev, kinds, lines, i - 1)
  }

  /** Line `i` goes out: it is no event, or the handler has a payload for it. */
  ghost predicate GoesOut(ev: Handler, kinds: Kinds, lines: seq<seq<Byte>>, i: nat)
    requires i < |lines|
  {
    var a := Answer(ev, kinds, lines, i);
    a.None? || a.value.Emit?
  }

  /** The first `n` lines go out. */
  ghost predicate AllGoOut(ev: Handler, kinds: Kinds, lines: seq<seq<Byte>>, n: nat)
    requires n <= |lines|
  {
    n == 0 || (AllGoOut(ev, kinds, lines, n - 1) && GoesOut(ev, kinds, lines, n - 1))
  }

  lemma {:induction false} GoesOutAt(ev: Handler, kinds: Kinds, lines: seq<seq<Byte>>, n: nat, i: nat)
    requires i < n <= |lines| && AllGoOut(ev, kinds, lines, n)
    ensures GoesOut(ev, kinds, lines, i)
    decreases n
  {
    if i < n - 1 { GoesOutAt(ev, kinds, lines, n - 1, i); }
  }

  /** An event goes out as `data: ` and the handler's payload, any other line as it is. */
  ghost function LineOut(ev: Handler, kinds: Kinds, lines: seq<seq<Byte>>, i: nat): seq<Byte>
    requires i < |lines|
  {
    match Answer(ev, kinds, lines, i)
    case Some(Emit(_, payload)) => [100, 97, 116, 97, 58, 32] + payload
    case _ => lines[i]
  }

  /** The first `n` lines as they go out. */
  ghost function AllOut(ev: Handler, kinds: Kinds, lines: seq<seq<Byte>>, n: nat): (out: seq<seq<Byte>>)
    requires n <= |lines|
    ensures |out| == n && forall i :: 0 <= i < n ==> out[i] == LineOut(ev, kinds, lines, i)
  {
    if n == 0 then [] else AllOut(ev, kinds, lines, n - 1) + [LineOut(ev, kinds, lines, n - 1)]
  }

  /** Taking the first line away moves everything down by one. */
  lemma {:induction false} Shifted(ev: Handler, kinds: Kinds, lines: seq<seq<Byte>>, i: nat)
    requires 0 < i <= |lines| && GoesOut(ev, kinds, lines, 0)
    ensures KindsBefore(ev, kinds, lines, i) == KindsBefore(ev, KindsBefore(ev, kinds, lines, 1), lines[1..], i - 1)
    ensures i < |lines| ==> Answer(ev, kinds, lines, i) == Answer(ev, KindsBefore(ev, kinds, lines, 1), lines[1..], i - 1)
    decreases i
  {
    if i > 1 { Shifted(ev, kinds, lines, i - 1); }
  }

  lemma {:induction false} OutShifted(ev: Handler, kinds: Kinds, lines: seq<seq<Byte>>, n: nat)
    requires 0 < n <= |lines| && GoesOut(ev, kinds, lines, 0)
    ensures AllOut(ev, kinds, lines, n) ==
      [LineOut(ev, kinds, lines, 0)] + AllOut(ev, KindsBefore(ev, kinds, lines, 1), lines[1..], n - 1)
    decreases n
  {
    if n > 1 {
      OutShifted(ev, kinds, lines, n - 1);
      Shifted(ev, kinds, lines, n - 1);
    }
  }

  lemma {:induction false} AllShifted(ev: Handler, kinds: Kinds, lines: seq<seq<Byte>>, n: nat)
    requires 0 < n <= |lines| && GoesOut(ev, kinds, lines, 0)
    ensures AllGoOut(ev, kinds, lines, n) <==> AllGoOut(ev, KindsBefore(ev, kinds, lines, 1), lines[1..], n - 1)
    decreases n
  {
    if n > 1 {
      AllShifted(ev, kinds, lines, n - 1);
      Shifted(ev, kinds, lines, n - 1);
    }
  }

  /** The outcome of handling the lines behind `done`, which stops at line `n`: at the end, or at
      the first line that does not go out. */
  ghost predicate Handled(ev: Handler, kinds: Kinds, lines: seq<seq<Byte>>, done: seq<seq<Byte>>, r: Option<Framed>, n: nat) {
    && n <= |lines| && AllGoOut(ev, kinds, lines, n)
    && match r
       case Some(Framed(k, Some(out))) =>
         n == |lines| && k == KindsBefore(ev, kinds, lines, n) && out == done + AllOut(ev, kinds, lines, n)
       case Some(Framed(k, None)) => n < |lines| && Answer(ev, kinds, lines, n) == Some(Drop(k))
       case None => n < |lines| && Answer(ev, kinds, lines, n) == Some(Raise)
  }

  lemma HandledFirst(ev: Handler, kinds: Kinds, lines: seq<seq<Byte>>, done: seq<seq<Byte>>, r: Option<Framed>, k: Kinds, m: nat)
    requires lines != [] && GoesOut(ev, kinds, lines, 0) && k == KindsBefore(ev, kinds, lines, 1)
    requires Handled(ev, k, lines[1..], done + [LineOut(ev, kinds, lines, 0)], r, m)
    ensures Handled(ev, kinds, lines, done, r, m + 1)
  {
    AllShifted(ev, kinds, lines, m + 1);
    Shifted(ev, kinds, lines, m + 1);
    DoneShifted(ev, kinds, lines, done, k, m);
  }

  lemma DoneShifted(ev: Handler, kinds: Kinds, lines: seq<seq<Byte>>, done: seq<seq<Byte>>, k: Kinds, m: nat)
    requires m < |lines| && GoesOut(ev, kinds, lines, 0) && k == KindsBefore(ev, kinds, lines, 1)
    ensures done + [LineOut(ev, kinds, lines, 0)] + AllOut(ev, k, lines[1..], m) == done + AllOut(ev, kinds, lines, m + 1)
  {
    OutShifted(ev, kinds, lines, m + 1);
    Associated(done, [LineOut(ev, kinds, lines, 0)], AllOut(ev, k, lines[1..], m));
  }

  lemma Associated(a: seq<seq<Byte>>, b: seq<seq<Byte>>, c: seq<seq<Byte>>)
    ensures a + b + c == a + (b + c)
  {
  }

  lemma FirstHandled(ev: Handler, kinds: Kinds, lines: seq<seq<Byte>>, done: seq<seq<Byte>>)
    requires lines != []
    ensures GoesOut(ev, kinds, lines, 0) ==>
      HandleLines(ev, kinds, lines, done) ==
      HandleLines(ev, KindsBefore(ev, kinds, lines, 1), lines[1..], done + [LineOut(ev, kinds, lines, 0)])
    ensures !GoesOut(ev, kinds, lines, 0) ==> Handled(ev, kinds, lines, done, HandleLines(ev, kinds, lines, done), 0)
  {
    EventIsData(lines[0]);
  }

  lemma {:induction false} LinesHandled(ev: Handler, kinds: Kinds, lines: seq<seq<Byte>>, done: seq<seq<Byte>>) returns (n: nat)
    ensures Handled(ev, kinds, lines, done, HandleLines(ev, kinds, lines, done), n)
    decreases |lines|
  {
    n := 0;
    if lines == [] {
      assert done + AllOut(ev, kinds, lines, 0) == done;
    } else {
      FirstHandled(ev, kinds, lines, done);
      if GoesOut(ev, kinds, lines, 0) {
        var k := KindsBefore(ev, kinds, lines, 1);
        var m := LinesHandled(ev, k, lines[1..], done + [LineOut(ev, kinds, lines, 0)]);
        HandledFirst(ev, kinds, lines, done, HandleLines(ev, kinds, lines, done), k, m);
        n := m + 1;
      }
    }
  }

  /** The first line that does not go out is one only. */
  lemma StopsOnce(ev: Handler, kinds: Kinds, lines: seq<seq<Byte>>, m: nat, n: nat)
    requires m < |lines| && AllGoOut(ev, kinds, lines, m) && !GoesOut(ev, kinds, lines, m)
    requires n <= |lines| && AllGoOut(ev, kinds, lines, n) && (n < |lines| ==> !GoesOut(ev, kinds, lines, n))
    ensures m == n
  {
    if m < n { GoesOutAt(ev, kinds, lines, n, m); }
    if n < m { GoesOutAt(ev, kinds, lines, m, n); }
  }

  /** The handling of a frame stops at line `n` with this answer. */
  ghost predicate StopsAt(ev: Handler, kinds: Kinds, lines: seq<seq<Byte>>, n: nat, answer: Outcome) {
    n < |lines| && AllGoOut(ev, kinds, lines, n) && Answer(ev, kinds, lines, n) == Some(answer)
  }

  /** A frame goes out if and only if each of its lines does: as many lines, each event with the
      handler's payload in its place, and the kinds the last of them left. The first event to be
      dropped drops the frame, and the first to fail fails it. */
  lemma FrameExact(ev: Handler, kinds: Kinds, frame: seq<Byte>)
    ensures var lines := Lines(frame); var r := HandleFrame(ev, kinds, frame);
      && (AllGoOut(ev, kinds, lines, |lines|) <==> r.Some? && r.value.lines.Some?)
      && (AllGoOut(ev, kinds, lines, |lines|) ==>
            r == Some(Framed(KindsBefore(ev, kinds, lines, |lines|), Some(AllOut(ev, kinds, lines, |lines|)))))
      && (forall k :: r == Some(Framed(k, None)) <==> exists n: nat :: StopsAt(ev, kinds, lines, n, Drop(k)))
      && (r == None <==> exists n: nat :: StopsAt(ev, kinds, lines, n, Raise))
  {
    var lines := Lines(frame);
    var n := LinesHandled(ev, kinds, lines, []);
    assert [] + AllOut(ev, kinds, lines, |lines|) == AllOut(ev, kinds, lines, |lines|);
    OutcomeIs(ev, kinds, lines, HandleFrame(ev, kinds, frame), n);
  }

  lemma OutcomeIs(ev: Handler, kinds: Kinds, lines: seq<seq<Byte>>, r: Option<Framed>, n: nat)
    requires Handled(ev, kinds, lines, [], r, n)
    ensures AllGoOut(ev, kinds, lines, |lines|) <==> r.Some? && r.value.lines.Some?
    ensures forall k :: r == Some(Framed(k, None)) <==> exists m: nat :: StopsAt(ev, kinds, lines, m, Drop(k))
    ensures r == None <==> exists m: nat :: StopsAt(ev, kinds, lines, m, Raise)
  {
    if n < |lines| {
      assert StopsAt(ev, kinds, lines, n, Answer(ev, kinds, lines, n).value);
      if AllGoOut(ev, kinds, lines, |lines|) { GoesOutAt(ev, kinds, lines, |lines|, n); }
    }
    forall m: nat, a: Outcome | StopsAt(ev, kinds, lines, m, a) && !a.Emit?
      ensures m == n
    {
      StopsOnce(ev, kinds, lines, m, n);
    }
  }

  // ---------------------------------------------------------------- frames of a stream

  /** A frame read with `kinds` leaves `k` behind and puts out `out`: its lines and an empty one, or
      nothing if it is dropped. */
  ghost predicate FrameGives(ev: Handler, kinds: Kinds, frame: seq<Byte>, k: Kinds, out: seq<Byte>) {
    var lines := Lines(frame);
    || (&& AllGoOut(ev, kinds, lines, |lines|) && k == KindsBefore(ev, kinds, lines, |lines|)
        && out == Join(AllOut(ev, kinds, lines, |lines|)) + [LF, LF])
    || (out == [] && exists n: nat :: StopsAt(ev, kinds, lines, n, Drop(k)))
  }

  ghost predicate FrameFails(ev: Handler, kinds: Kinds, frame: seq<Byte>) {
    exists n: nat :: StopsAt(ev, kinds, Lines(frame), n, Raise)
  }

  /** The frames give `outs` one after another, each with the kinds the one before left. */
  ghost predicate FramesGive(ev: Handler, kinds: Kinds, frames: seq<seq<Byte>>, ks: seq<Kinds>, outs: seq<seq<Byte>>) {
    && |outs| <= |frames| && |ks| == |outs| + 1 && ks[0] == kinds
    && forall j :: 0 <= j < |outs| ==> FrameGives(ev, ks[j], frames[j], ks[j + 1], outs[j])
  }

  lemma FrameHandled(ev: Handler, kinds: Kinds, frame: seq<Byte>)
    ensures var r := HandleFrame(ev, kinds, frame);
      if r.None? then FrameFails(ev, kinds, frame) else FrameGives(ev, kinds, frame, r.value.kinds, FrameOutput(r.value))
  {
    FrameExact(ev, kinds, frame);
    var r := HandleFrame(ev, kinds, frame);
    if r.Some? && r.value.lines.None? {
      assert r == Some(Framed(r.value.kinds, None));
    }
  }

  lemma GivesFirst(ev: Handler, kinds: Kinds, frames: seq<seq<Byte>>, k: Kinds, out: seq<Byte>, ks: seq<Kinds>, outs: seq<seq<Byte>>)
    requires frames != [] && FrameGives(ev, kinds, frames[0], k, out) && FramesGive(ev, k, frames[1..], ks, outs)
    ensures FramesGive(ev, kinds, frames, [kinds] + ks, [out] + outs)
    ensures Concat([out] + outs) == out + Concat(outs)
  {
    var ks', outs' := [kinds] + ks, [out] + outs;
    forall j | 0 <= j < |outs'|
      ensures FrameGives(ev, ks'[j], frames[j], ks'[j + 1], outs'[j])
    {
      if j > 0 {
        assert frames[j] == frames[1..][j - 1] && ks'[j] == ks[j - 1] && ks'[j + 1] == ks[j] && outs'[j] == outs[j - 1];
      }
    }
    assert outs'[1..] == outs;
  }

  lemma {:induction false} FramesHandled(ev: Handler, kinds: Kinds, frames: seq<seq<Byte>>) returns (ks: seq<Kinds>, outs: seq<seq<Byte>>)
    ensures FramesGive(ev, kinds, frames, ks, outs)
    ensures var p := HandleFrames(ev, kinds, frames);
      if p.Some? then |outs| == |frames| && p.value == Progress(Concat(outs), ks[|outs|])
      else |outs| < |frames| && FrameFails(ev, ks[|outs|], frames[|outs|])
    decreases |frames|
  {
    ks, outs := [kinds], [];
    if frames != [] {
      FrameHandled(ev, kinds, frames[0]);
      var r := HandleFrame(ev, kinds, frames[0]);
      if r.Some? {
        var ks', outs' := FramesHandled(ev, r.value.kinds, frames[1..]);
        GivesFirst(ev, kinds, frames, r.value.kinds, FrameOutput(r.value), ks', outs');
        ks, outs := [kinds] + ks', [FrameOutput(r.value)] + outs';
      }
    }
  }

  /** A stream is rewritten frame by frame: what each gives is put out in order, and the stream fails
      at the first frame that fails. */
  lemma RewriteExact(ev: Handler, stream: seq<Byte>) returns (ks: seq<Kinds>, outs: seq<seq<Byte>>)
    ensures var frames := CutAll(Normalize(stream), true).frames;
      && FramesGive(ev, map[], frames, ks, outs)
      && match Rewrite(ev, stream)
         case Success(p) => |outs| == |frames| && p == Progress(Concat(outs), ks[|outs|])
         case Failure(error) => error == InvalidFrame && |outs| < |frames| && FrameFails(ev, ks[|outs|], frames[|outs|])
  {
    ks, outs := FramesHandled(ev, map[], CutAll(Normalize(stream), true).frames);
  }

  /** A call fails for its size if and only if what is buffered and the chunk are together longer than
      two mebibytes, and otherwise only if a frame fails. */
  lemma FeedRefuses(ev: Handler, buffer: seq<Byte>, kinds: Kinds, raw: seq<Byte>, final: bool)
    ensures FeedOnce(ev, buffer, kinds, raw, final) == Failure(FrameExceeded) <==> |buffer| + |raw| > 2097152
    ensures FeedOnce(ev, buffer, kinds, raw, final) == Failure(InvalidFrame) <==>
      |buffer| + |raw| <= 2097152 && HandleFrames(ev, kinds, CutAll(Normalize(buffer + raw), final).frames).None?
  {
  }

  // ---------------------------------------------------------------- where lines and frames end

  /** The lines of a frame are its pieces between line feeds. */
  lemma {:induction false} LinesExact(b: seq<Byte>, lines: seq<seq<Byte>>)
    ensures Lines(b) == lines <==> lines != [] && Join(lines) == b && forall l :: l in lines ==> LF !in l
    decreases |b|
  {
    if Lines(b) == lines { LinesJoin(b); }
    if lines != [] && Join(lines) == b && forall l :: l in lines ==> LF !in l { JoinLines(lines); }
  }

  lemma {:induction false} LinesJoin(b: seq<Byte>)
    ensures Join(Lines(b)) == b && forall l :: l in Lines(b) ==> LF !in l
    decreases |b|
  {
    if b != [] {
      LinesJoin(b[1..]);
      var rest := Lines(b[1..]);
      if b[0] == LF {
        assert Lines(b)[1..] == rest;
      } else {
        assert Lines(b)[1..] == rest[1..];
      }
      assert forall l :: l in Lines(b) ==> l in rest || l == [] || l == [b[0]] + rest[0];
    }
  }

  lemma JoinLonger(l: seq<Byte>, more: seq<seq<Byte>>)
    requires l != []
    ensures Join([l] + more) == [l[0]] + Join([l[1..]] + more)
    ensures [[l[0]] + l[1..]] + more == [l] + more
  {
    assert [l[0]] + l[1..] == l;
    assert ([l] + more)[1..] == more && ([l[1..]] + more)[1..] == more;
  }

  lemma {:induction false} JoinLines(lines: seq<seq<Byte>>)
    requires lines != [] && forall l :: l in lines ==> LF !in l
    ensures Lines(Join(lines)) == lines
    decreases |lines|, |lines[0]|
  {
    var l, more := lines[0], lines[1..];
    if l != [] {
      var shorter := [l[1..]] + more;
      assert shorter[1..] == more && forall x :: x in shorter ==> x == l[1..] || x in lines;
      assert l[0] in l && forall y :: y in l[1..] ==> y in l;
      JoinLines(shorter);
      JoinLonger(l, more);
      assert lines == [l] + more && Join(lines)[1..] == Join(shorter);
    } else if more == [] {
      assert lines == [[]];
    } else {
      JoinLines(more);
      assert Join(lines)[1..] == Join(more);
    }
  }

  /** No line feed stands directly before another. */
  predicate NoEmptyLine(b: seq<Byte>) {
    forall i :: 0 <= i < |b| - 1 ==> !(b[i] == LF && b[i + 1] == LF)
  }

  /** The frames, each with its empty line. */
  function Ended(frames: seq<seq<Byte>>): seq<Byte> {
    if frames == [] then [] else frames[0] + [LF, LF] + Ended(frames[1..])
  }

  lemma {:induction false} BlankLineFirst(b: seq<Byte>)
    ensures BlankLine(b).None? <==> NoEmptyLine(b)
    ensures BlankLine(b).Some? ==> NoEmptyLine(b[..BlankLine(b).value] + [LF])
    decreases |b|
  {
    if |b| >= 2 && !(b[0] == LF && b[1] == LF) {
      BlankLineFirst(b[1..]);
      assert forall i :: 0 < i < |b| ==> b[i] == b[1..][i - 1];
      if BlankLine(b).Some? {
        var n := BlankLine(b).value;
        var f, g := b[..n] + [LF], b[1..][..n - 1] + [LF];
        assert f == [b[0]] + g;
      }
    }
  }

  lemma {:induction false} BlankLineBehind(f: seq<Byte>)
    requires NoEmptyLine(f + [LF])
    ensures BlankLine(f + [LF, LF]) == Some(|f|)
    decreases |f|
  {
    var x := f + [LF, LF];
    if f != [] {
      assert x[1..] == f[1..] + [LF, LF];
      assert (f + [LF])[0] == f[0] && (f + [LF])[1] == x[1];
      assert forall i :: 0 <= i < |f| ==> (f[1..] + [LF])[i] == (f + [LF])[i + 1];
      BlankLineBehind(f[1..]);
    }
  }

  /** A text is cut at its empty lines and nowhere else. */
  lemma {:induction false} CutExact(text: seq<Byte>, frames: seq<seq<Byte>>, rest: seq<Byte>)
    ensures CutFrames(text) == Cut(frames, rest) <==>
      text == Ended(frames) + rest && NoEmptyLine(rest) && forall f :: f in frames ==> NoEmptyLine(f + [LF])
    decreases |text|
  {
    BlankLineFirst(text);
    if frames == [] {
      assert Ended(frames) + rest == rest;
      if BlankLine(text).None? { assert CutFrames(text) == Cut([], text); }
    } else {
      var f, more := frames[0], frames[1..];
      assert frames == [f] + more && Ended(frames) + rest == f + [LF, LF] + (Ended(more) + rest);
      if text == Ended(frames) + rest && NoEmptyLine(f + [LF]) {
        BlankLineBehind(f);
        CutFirst(f, Ended(more) + rest);
        CutExact(Ended(more) + rest, more, rest);
      } else if BlankLine(text).Some? {
        var n := BlankLine(text).value;
        var tail := text[n + 2..];
        assert text == text[..n] + [LF, LF] + tail;
        CutExact(tail, more, rest);
      }
    }
  }

  /** At the end of the stream what is left is a frame too, unless it is nothing; before, it waits. */
  lemma FinalFrames(text: seq<Byte>, complete: seq<seq<Byte>>, rest: seq<Byte>)
    requires text == Ended(complete) + rest && NoEmptyLine(rest) && forall f :: f in complete ==> NoEmptyLine(f + [LF])
    ensures CutAll(text, true) == Cut(if rest == [] then complete else complete + [rest], [])
    ensures CutAll(text, false) == Cut(complete, rest)
  {
    CutExact(text, complete, rest);
  }

  /** The byte stays: it is no CR directly before a LF. */
  predicate Stays(b: seq<Byte>, i: nat)
    requires i < |b|
  {
    !(b[i] == CR && i + 1 < |b| && b[i + 1] == LF)
  }

  /** Those of the first `n` bytes that stay. */
  function Kept(b: seq<Byte>, n: nat): seq<Byte>
    requires n <= |b|
  {
    if n == 0 then [] else Kept(b, n - 1) + if Stays(b, n - 1) then [b[n - 1]] else []
  }

  lemma {:induction false} KeptShifted(b: seq<Byte>, n: nat)
    requires 0 < n <= |b|
    ensures Kept(b, n) == (if Stays(b, 0) then [b[0]] else []) + Kept(b[1..], n - 1)
    decreases n
  {
    if n == 1 {
      assert Kept(b, 0) == [];
    } else {
      KeptShifted(b, n - 1);
      assert Stays(b, n - 1) == Stays(b[1..], n - 2);
    }
  }

  /** Replacing CR LF by LF takes away exactly each CR directly before a LF. */
  lemma {:induction false} NormalizeExact(b: seq<Byte>)
    ensures Normalize(b) == Kept(b, |b|)
    decreases |b|
  {
    if b != [] {
      NormalizeExact(b[1..]);
      NormalizeTail(b);
      KeptShifted(b, |b|);
    }
  }

  lemma NormalizeTail(b: seq<Byte>)
    requires b != []
    ensures Normalize(b) == if Stays(b, 0) then [b[0]] + Normalize(b[1..]) else Normalize(b[1..])
  {
    if !Stays(b, 0) {
      assert b[1..][1..] == b[2..];
      if |b| > 2 { NormalizeCons(LF, b[2..]); assert [LF] + b[2..] == b[1..]; }
    } else if |b| == 1 {
      assert b == [b[0]] + b[1..];
    }
  }
}
