/**
 The condition of chunk invariance is exact: a stream within the buffer limit is rewritten the
 same under every split and every handler if and only if it has no CR CR LF. A CR CR LF that ends
 a chunk leaves CR LF in the buffer, and the next call replaces it once more: one CR is lost.
 */
module StreamExactness {
  import opened Wrappers
  import opened StreamRewriter

  // ---------------------------------------------------------------- the buffer limit

  lemma {:induction false} NormalizeShrinks(b: seq<Byte>)
    ensures |Normalize(b)| <= |b|
    decreases |b|
  {
    if |b| >= 2 {
      if b[0] == CR && b[1] == LF { NormalizeShrinks(b[2..]); } else { NormalizeShrinks(b[1..]); }
    }
  }

  /** A text with an empty line loses its first frame. */
  lemma CutStep(text: seq<Byte>) returns (f: seq<Byte>, m: seq<Byte>)
    requires BlankLine(text).Some?
    ensures text == f + [LF, LF] + m
    ensures CutFrames(text) == FrameBefore(f, CutFrames(m))
  {
    var end := BlankLine(text);
    f, m := text[..end.value], text[end.value + 2..];
  }

  lemma {:induction false} RestShrinks(text: seq<Byte>)
    ensures |CutFrames(text).rest| <= |text|
    decreases |text|
  {
    if BlankLine(text).Some? {
      var f, m := CutStep(text);
      RestShrinks(m);
    }
  }

  /** A stream no longer than the limit cannot overflow the buffer. */
  lemma {:induction false} NeverExceeds(ev: Handler, buffer: seq<Byte>, kinds: Kinds, chunks: seq<seq<Byte>>)
    requires chunks != [] && |buffer| + |Concat(chunks)| <= MAX_FRAME
    ensures FeedAll(ev, buffer, kinds, chunks) != Failure(FrameExceeded)
    decreases |chunks|
  {
    var fed := FeedOnce(ev, buffer, kinds, chunks[0], |chunks| == 1);
    if |chunks| > 1 && fed.Success? {
      NormalizeShrinks(buffer + chunks[0]);
      RestShrinks(Normalize(buffer + chunks[0]));
      NeverExceeds(ev, fed.value.1, fed.value.0.kinds, chunks[1..]);
    }
  }

  // ---------------------------------------------------------------- counting CR

  function Crs(b: seq<Byte>): nat {
    if b == [] then 0 else (if b[0] == CR then 1 else 0) + Crs(b[1..])
  }

  function CrsOf(parts: seq<seq<Byte>>): nat {
    if parts == [] then 0 else Crs(parts[0]) + CrsOf(parts[1..])
  }

  lemma {:induction false} CrsConcat(a: seq<Byte>, b: seq<Byte>)
    ensures Crs(a + b) == Crs(a) + Crs(b)
    decreases |a|
  {
    if a == [] {
      assert a + b == b;
    } else {
      assert (a + b)[1..] == a[1..] + b;
      CrsConcat(a[1..], b);
    }
  }

  lemma CrsEmptyLine(b: seq<Byte>)
    ensures Crs(b + [LF, LF]) == Crs(b)
  {
    CrsConcat(b, [LF, LF]);
    assert [LF, LF][1..] == [LF] && Crs([LF]) == 0;
  }

  lemma {:induction false} CrsOfConcat(a: seq<seq<Byte>>, b: seq<seq<Byte>>)
    ensures CrsOf(a + b) == CrsOf(a) + CrsOf(b)
    decreases |a|
  {
    if a == [] {
      assert a + b == b;
    } else {
      assert (a + b)[1..] == a[1..] + b;
      CrsOfConcat(a[1..], b);
    }
  }

  lemma {:induction false} CrsLines(b: seq<Byte>)
    ensures CrsOf(Lines(b)) == Crs(b)
    decreases |b|
  {
    if b != [] {
      CrsLines(b[1..]);
      var rest := Lines(b[1..]);
      if b[0] == LF {
        assert ([[]] + rest)[1..] == rest;
      } else {
        var first := [b[0]] + rest[0];
        assert first[1..] == rest[0];
        assert ([first] + rest[1..])[1..] == rest[1..];
      }
    }
  }

  lemma {:induction false} CrsJoin(lines: seq<seq<Byte>>)
    ensures Crs(Join(lines)) == CrsOf(lines)
    decreases |lines|
  {
    if |lines| == 1 {
      assert lines[1..] == [];
    } else if |lines| > 1 {
      CrsJoin(lines[1..]);
      CrsConcat(lines[0] + [LF], Join(lines[1..]));
      CrsConcat(lines[0], [LF]);
    }
  }

  lemma {:induction false} CrsCut(text: seq<Byte>)
    ensures CrsOf(CutFrames(text).frames) + Crs(CutFrames(text).rest) == Crs(text)
    decreases |text|
  {
    if BlankLine(text).Some? {
      var f, m := CutStep(text);
      CrsCut(m);
      CrsFrame(f, m, text);
      CrsOfFirst(f, CutFrames(m).frames);
    }
  }

  lemma CrsFrame(f: seq<Byte>, m: seq<Byte>, text: seq<Byte>)
    requires text == f + [LF, LF] + m
    ensures Crs(text) == Crs(f) + Crs(m)
  {
    CrsConcat(f + [LF, LF], m);
    CrsEmptyLine(f);
  }

  lemma CrsOfFirst(f: seq<Byte>, more: seq<seq<Byte>>)
    ensures CrsOf([f] + more) == Crs(f) + CrsOf(more)
  {
    assert ([f] + more)[1..] == more;
  }

  lemma CrsCutAll(text: seq<Byte>)
    ensures CrsOf(CutAll(text, true).frames) == Crs(text)
  {
    CrsCut(text);
    var c := CutFrames(text);
    CrsOfConcat(c.frames, [c.rest]);
    assert CrsOf([c.rest]) == Crs(c.rest);
  }

  // ---------------------------------------------------------------- a handler that keeps every payload

  function Echo(kinds: Kinds, payload: seq<Byte>): Outcome {
    Emit(kinds, payload)
  }

  lemma {:induction false} EchoLines(kinds: Kinds, lines: seq<seq<Byte>>, done: seq<seq<Byte>>)
    ensures var framed := HandleLines(Echo, kinds, lines, done);
      && framed.Some? && framed.value.kinds == kinds && framed.value.lines.Some?
      && CrsOf(framed.value.lines.value) == CrsOf(done) + CrsOf(lines)
    decreases |lines|
  {
    if lines != [] {
      var line := if IsData(lines[0]) then DATA_OUT + lines[0][5..] else lines[0];
      EchoLines(kinds, lines[1..], done + [line]);
      CrsOfConcat(done, [line]);
      assert CrsOf([line]) == Crs(line);
      if IsData(lines[0]) { CrsData(lines[0]); }
    }
  }

  lemma CrsData(line: seq<Byte>)
    requires DATA <= line
    ensures Crs(DATA_OUT + line[5..]) == Crs(line)
  {
    assert line == DATA + line[5..];
    CrsConcat(DATA_OUT, line[5..]);
    CrsConcat(DATA, line[5..]);
    CrsConcat(DATA, [32]);
    assert DATA_OUT == DATA + [32];
  }

  lemma {:induction false} EchoFrames(kinds: Kinds, frames: seq<seq<Byte>>)
    ensures var p := HandleFrames(Echo, kinds, frames);
      p.Some? && p.value.kinds == kinds && Crs(p.value.output) == CrsOf(frames)
    decreases |frames|
  {
    if frames != [] {
      EchoLines(kinds, Lines(frames[0]), []);
      var framed := HandleFrame(Echo, kinds, frames[0]).value;
      CrsLines(frames[0]);
      CrsJoin(framed.lines.value);
      CrsEmptyLine(Join(framed.lines.value));
      EchoFrames(kinds, frames[1..]);
      CrsConcat(FrameOutput(framed), HandleFrames(Echo, kinds, frames[1..]).value.output);
    }
  }

  // ---------------------------------------------------------------- what a second replacement loses

  predicate EndsInLf(b: seq<Byte>) {
    b != [] && b[|b| - 1] == LF
  }

  predicate EndsInCrLf(b: seq<Byte>) {
    |b| >= 2 && b[|b| - 2] == CR && b[|b| - 1] == LF
  }

  lemma {:induction false} NormalizeApart(a: seq<Byte>, b: seq<Byte>)
    requires EndsInLf(a)
    ensures Normalize(a + b) == Normalize(a) + Normalize(b)
    decreases |a|
  {
    if |a| == 1 {
      NormalizeCons(a[0], b);
      assert a == [a[0]];
    } else if a[0] == CR && a[1] == LF {
      if |a| == 2 {
        assert a == [CR, LF];
        NormalizePair(b);
      } else {
        NormalizeApart(a[2..], b);
        assert (a + b)[2..] == a[2..] + b;
        Associate(LF, Normalize(a[2..]), Normalize(b));
      }
    } else {
      NormalizeApart(a[1..], b);
      assert (a + b)[1..] == a[1..] + b;
      Associate(a[0], Normalize(a[1..]), Normalize(b));
    }
  }

  lemma Associate(x: Byte, a: seq<Byte>, b: seq<Byte>)
    ensures [x] + (a + b) == ([x] + a) + b
  {
  }

  /** Normalizing never adds a CR, and it removes the one before a final LF. */
  lemma {:induction false} CrsNormalize(b: seq<Byte>)
    ensures Crs(Normalize(b)) <= Crs(b)
    ensures EndsInCrLf(b) ==> Crs(Normalize(b)) < Crs(b)
    decreases |b|
  {
    if |b| >= 2 {
      if b[0] == CR && b[1] == LF {
        CrsNormalize(b[2..]);
        CrsConcat([LF], Normalize(b[2..]));
        assert b == [CR, LF] + b[2..];
        CrsConcat([CR, LF], b[2..]);
        assert Crs([CR, LF]) == 1 by { assert [CR, LF][1..] == [LF]; }
      } else {
        CrsNormalize(b[1..]);
        CrsConcat([b[0]], Normalize(b[1..]));
        assert b == [b[0]] + b[1..];
        CrsConcat([b[0]], b[1..]);
      }
    }
  }

  lemma {:induction false} CrCrLfKeepsOne(p: seq<Byte>)
    ensures EndsInCrLf(Normalize(p + [CR, CR, LF]))
    decreases |p|
  {
    var b := p + [CR, CR, LF];
    if p == [] {
      assert b == [CR] + [CR, LF];
      NormalizeCons(CR, [CR, LF]);
      NormalizePair([]);
      assert [CR, LF] + [] == [CR, LF];
    } else if |p| >= 2 && p[0] == CR && p[1] == LF {
      CrCrLfKeepsOne(p[2..]);
      assert b[2..] == p[2..] + [CR, CR, LF];
    } else {
      CrCrLfKeepsOne(p[1..]);
      assert b[1..] == p[1..] + [CR, CR, LF];
      assert !(b[0] == CR && b[1] == LF);
    }
  }

  lemma {:induction false} RestEndsInCrLf(text: seq<Byte>)
    requires EndsInCrLf(text)
    ensures EndsInCrLf(CutFrames(text).rest)
    decreases |text|
  {
    var end := BlankLine(text);
    if end.Some? {
      var m := text[end.value + 2..];
      assert end.value + 2 <= |text| - 2;
      assert m[|m| - 1] == text[|text| - 1] && m[|m| - 2] == text[|text| - 2];
      RestEndsInCrLf(m);
    }
  }

  /** A split right after CR CR LF: the output of the two chunks has fewer CR than the output of
      the whole stream. */
  lemma SplitLoses(p: seq<Byte>, t: seq<Byte>)
    requires |p| + 3 + |t| <= MAX_FRAME
    ensures var chunks := [p + [CR, CR, LF], t];
      FeedAll(Echo, [], map[], chunks) != Rewrite(Echo, p + [CR, CR, LF] + t)
  {
    var s := p + [CR, CR, LF];
    var chunks := [s, t];
    var n := Normalize(s);
    CrCrLfKeepsOne(p);
    RestEndsInCrLf(n);
    CrsCut(n);
    var c := CutFrames(n);
    EchoFrames(map[], c.frames);
    assert [] + s == s;
    NormalizeShrinks(s);
    RestShrinks(n);
    var second := CutAll(Normalize(c.rest + t), true);
    EchoFrames(map[], second.frames);
    CrsCutAll(Normalize(c.rest + t));
    var whole := CutAll(Normalize(s + t), true);
    EchoFrames(map[], whole.frames);
    CrsCutAll(Normalize(s + t));
    FewerCrs(s, c.rest, t);
    var out1 := HandleFrames(Echo, map[], c.frames).value.output;
    var out2 := HandleFrames(Echo, map[], second.frames).value.output;
    CrsConcat(out1, out2);
    TwoChunks(s, t);
  }

  lemma FewerCrs(s: seq<Byte>, rest: seq<Byte>, t: seq<Byte>)
    requires EndsInLf(s) && EndsInCrLf(rest)
    ensures Crs(Normalize(s + t)) == Crs(Normalize(s)) + Crs(Normalize(t))
    ensures Crs(Normalize(rest + t)) < Crs(rest) + Crs(Normalize(t))
  {
    NormalizeApart(s, t);
    CrsConcat(Normalize(s), Normalize(t));
    NormalizeApart(rest, t);
    CrsConcat(Normalize(rest), Normalize(t));
    CrsNormalize(rest);
  }

  lemma TwoChunks(s: seq<Byte>, t: seq<Byte>)
    requires |s| + |t| <= MAX_FRAME
    requires |CutFrames(Normalize(s)).rest| <= |s|
    ensures var c := CutFrames(Normalize(s)); var second := CutAll(Normalize(c.rest + t), true);
      var p := HandleFrames(Echo, map[], c.frames);
      p.Some? && HandleFrames(Echo, p.value.kinds, second.frames).Some? ==>
        FeedAll(Echo, [], map[], [s, t]) == Success(Progress(
          p.value.output + HandleFrames(Echo, p.value.kinds, second.frames).value.output,
          HandleFrames(Echo, p.value.kinds, second.frames).value.kinds))
  {
    assert [] + s == s && [s, t][1..] == [t];
  }

  // ---------------------------------------------------------------- exactness

  /** Every split of the stream, under every handler, is rewritten like the whole stream. */
  ghost predicate SplitFree(b: seq<Byte>) {
    forall ev: Handler, chunks: seq<seq<Byte>> ::
      chunks != [] && Concat(chunks) == b ==> FeedAll(ev, [], map[], chunks) == Rewrite(ev, b)
  }

  lemma {:induction false} CrCrLfIn(b: seq<Byte>) returns (p: seq<Byte>, t: seq<Byte>)
    requires !NoCrCrLf(b)
    ensures b == p + [CR, CR, LF] + t
    decreases |b|
  {
    if b[0] == CR && b[1] == CR && b[2] == LF {
      p, t := [], b[3..];
    } else {
      p, t := CrCrLfIn(b[1..]);
      p := [b[0]] + p;
    }
  }

  /** A stream within the buffer limit is rewritten the same under every split if and only if
      no CR stands before a CR LF in it. */
  lemma ChunkInvarianceExact(b: seq<Byte>)
    requires |b| <= MAX_FRAME
    ensures SplitFree(b) <==> NoCrCrLf(b)
  {
    if NoCrCrLf(b) {
      NoCrCrLfSplitFree(b);
    } else {
      CrCrLfNotSplitFree(b);
    }
  }

  lemma NoCrCrLfSplitFree(b: seq<Byte>)
    requires |b| <= MAX_FRAME && NoCrCrLf(b)
    ensures SplitFree(b)
  {
    forall ev: Handler, chunks: seq<seq<Byte>> | chunks != [] && Concat(chunks) == b
      ensures FeedAll(ev, [], map[], chunks) == Rewrite(ev, b)
    {
      ChunkInvariance(ev, chunks);
      NeverExceeds(ev, [], map[], chunks);
    }
  }

  lemma CrCrLfNotSplitFree(b: seq<Byte>)
    requires |b| <= MAX_FRAME && !NoCrCrLf(b)
    ensures !SplitFree(b)
  {
    var p, t := CrCrLfIn(b);
    SplitLosesIn(b, p, t);
  }

  lemma SplitLosesIn(b: seq<Byte>, p: seq<Byte>, t: seq<Byte>)
    requires |b| <= MAX_FRAME && b == p + [CR, CR, LF] + t
    ensures !SplitFree(b)
  {
    SplitLoses(p, t);
    TwoParts(p + [CR, CR, LF], t);
    NotSplitFree(b, [p + [CR, CR, LF], t]);
  }

  lemma NotSplitFree(b: seq<Byte>, chunks: seq<seq<Byte>>)
    requires chunks != [] && Concat(chunks) == b
    requires FeedAll(Echo, [], map[], chunks) != Rewrite(Echo, b)
    ensures !SplitFree(b)
  {
  }

  lemma TwoParts(s: seq<Byte>, t: seq<Byte>)
    ensures Concat([s, t]) == s + t
  {
    assert [s, t][1..] == [t] && [t][1..] == [] && t + [] == t;
    assert Concat([t]) == t + Concat([]);
    assert Concat([s, t]) == s + Concat([t]);
  }
}
