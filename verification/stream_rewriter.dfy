/**
 The incremental event-stream rewriter: bytes arrive in arbitrary chunks, CRLF becomes LF,
 frames end at an empty line, and every `data:` line is handed to an event handler that may
 replace its payload, drop the whole frame, or fail.

 The framing follows section 9.2.6 of the WHATWG HTML Living Standard for LF and CRLF only.
 The handler (JSON decoding, the rewriting of one event, JSON encoding) is a parameter.
 */
module StreamRewriter {
  import opened Wrappers

  type Byte = b: int | 0 <= b < 256

  const LF: Byte := 10
  const CR: Byte := 13

  const MAX_FRAME: nat := 2 * 1024 * 1024

  /** The bytes of "data:", "data: " and "[DONE]". */
  const DATA: seq<Byte> := [100, 97, 116, 97, 58]
  const DATA_OUT: seq<Byte> := [100, 97, 116, 97, 58, 32]
  const DONE: seq<Byte> := [91, 68, 79, 78, 69, 93]

  /** The item kinds a stream has announced so far, by item id. */
  type Kinds = map<string, string>

  datatype Outcome = Raise | Drop(kinds: Kinds) | Emit(kinds: Kinds, payload: seq<Byte>)

  type Handler = (Kinds, seq<Byte>) -> Outcome

  datatype Error = FrameExceeded | InvalidFrame

  // ---------------------------------------------------------------- bytes

  /** One left-to-right replacement of CR LF by LF. */
  function Normalize(b: seq<Byte>): seq<Byte> {
    if |b| < 2 then b
    else if b[0] == CR && b[1] == LF then [LF] + Normalize(b[2..])
    else [b[0]] + Normalize(b[1..])
  }

  /** Where the first empty line starts. */
  function BlankLine(b: seq<Byte>): (r: Option<nat>)
    ensures r.Some? ==> r.value + 2 <= |b| && b[r.value] == LF && b[r.value + 1] == LF
  {
    if |b| < 2 then None
    else if b[0] == LF && b[1] == LF then Some(0)
    else
      var rest := BlankLine(b[1..]);
      if rest.None? then None else Some(rest.value + 1)
  }

  function FirstLine(b: seq<Byte>): seq<Byte> {
    if b == [] || b[0] == LF then [] else [b[0]] + FirstLine(b[1..])
  }

  /** Split at every LF. */
  function Lines(b: seq<Byte>): (lines: seq<seq<Byte>>)
    ensures lines != []
    decreases |b|
  {
    if b == [] then [[]]
    else
      var rest := Lines(b[1..]);
      if b[0] == LF then [[]] + rest else [[b[0]] + rest[0]] + rest[1..]
  }

  function Join(lines: seq<seq<Byte>>): seq<Byte> {
    if lines == [] then []
    else if |lines| == 1 then lines[0]
    else lines[0] + [LF] + Join(lines[1..])
  }

  predicate Space(b: Byte) {
    b == 32 || 9 <= b <= 13
  }

  function Strip(b: seq<Byte>): seq<Byte>
    decreases |b|
  {
    if b != [] && Space(b[0]) then Strip(b[1..])
    else if b != [] && Space(b[|b| - 1]) then Strip(b[..|b| - 1])
    else b
  }

  predicate IsData(line: seq<Byte>) {
    DATA <= line && Strip(line[5..]) != DONE
  }

  // ---------------------------------------------------------------- frames

  /** A frame after its lines were handled: the kinds known then and the rewritten lines, or
      no lines if an event asked for the frame to be dropped. */
  datatype Framed = Framed(kinds: Kinds, lines: Option<seq<seq<Byte>>>)

  function HandleLines(ev: Handler, kinds: Kinds, lines: seq<seq<Byte>>, done: seq<seq<Byte>>): Option<Framed>
    decreases |lines|
  {
    if lines == [] then Some(Framed(kinds, Some(done)))
    else if !IsData(lines[0]) then HandleLines(ev, kinds, lines[1..], done + [lines[0]])
    else
      match ev(kinds, lines[0][5..])
      case Raise => None
      case Drop(k) => Some(Framed(k, None))
      case Emit(k, payload) => HandleLines(ev, k, lines[1..], done + [DATA_OUT + payload])
  }

  function HandleFrame(ev: Handler, kinds: Kinds, frame: seq<Byte>): Option<Framed> {
    HandleLines(ev, kinds, Lines(frame), [])
  }

  function FrameOutput(f: Framed): seq<Byte> {
    if f.lines.None? then [] else Join(f.lines.value) + [LF, LF]
  }

  /** A text cut at its empty lines: the complete frames and what follows the last one. */
  datatype Cut = Cut(frames: seq<seq<Byte>>, rest: seq<Byte>)

  function CutFrames(text: seq<Byte>): Cut
    decreases |text|
  {
    var end := BlankLine(text);
    if end.None? then Cut([], text)
    else
      var more := CutFrames(text[end.value + 2..]);
      Cut([text[..end.value]] + more.frames, more.rest)
  }

  /** At the end of the stream the unfinished frame counts too. */
  function CutAll(text: seq<Byte>, final: bool): Cut {
    var c := CutFrames(text);
    if final && c.rest != [] then Cut(c.frames + [c.rest], []) else c
  }

  /** What handling frames has produced. */
  datatype Progress = Progress(output: seq<Byte>, kinds: Kinds)

  function HandleFrames(ev: Handler, kinds: Kinds, frames: seq<seq<Byte>>): Option<Progress>
    decreases |frames|
  {
    if frames == [] then Some(Progress([], kinds))
    else
      var framed := HandleFrame(ev, kinds, frames[0]);
      if framed.None? then None
      else
        var more := HandleFrames(ev, framed.value.kinds, frames[1..]);
        if more.None? then None else Some(Progress(FrameOutput(framed.value) + more.value.output, more.value.kinds))
  }

  /** One call of the rewriter on the buffered bytes and a new chunk: what it produced and the
      bytes that stay in the buffer. */
  function FeedOnce(ev: Handler, buffer: seq<Byte>, kinds: Kinds, raw: seq<Byte>, final: bool): Result<(Progress, seq<Byte>), Error> {
    if |buffer + raw| > MAX_FRAME then Failure(FrameExceeded)
    else
      var cut := CutAll(Normalize(buffer + raw), final);
      var p := HandleFrames(ev, kinds, cut.frames);
      if p.None? then Failure(InvalidFrame) else Success((p.value, cut.rest))
  }

  class Rewriter {
    const ev: Handler
    var buffer: seq<Byte>
    var kinds: Kinds

    constructor (ev: Handler)
      ensures this.ev == ev && buffer == [] && kinds == map[]
    {
      this.ev := ev;
      buffer, kinds := [], map[];
    }

    /** Rewrite the lines of one frame; `skip` when the frame is dropped. */
    method RewriteFrame(frame: seq<Byte>) returns (ok: bool, skip: bool, lines: seq<seq<Byte>>)
      modifies this`kinds
      ensures var framed := HandleFrame(ev, old(kinds), frame);
        && ok == framed.Some?
        && (ok ==> framed.value == Framed(kinds, if skip then None else Some(lines)))
    {
      var todo := Lines(frame);
      lines := [];
      for i := 0 to |todo|
        invariant HandleFrame(ev, old(kinds), frame) == HandleLines(ev, kinds, todo[i..], lines)
      {
        assert todo[i..][1..] == todo[i + 1..];
        var line := todo[i];
        if IsData(line) {
          match ev(kinds, line[5..]) {
            case Raise => return false, false, lines;
            case Drop(k) =>
              kinds := k;
              return true, true, lines;
            case Emit(k, payload) =>
              kinds := k;
              line := DATA_OUT + payload;
          }
        }
        lines := lines + [line];
      }
      return true, false, lines;
    }

    /** Feed one chunk; the buffer shrinks with every frame taken from it. */
    method Feed(raw: seq<Byte>, final: bool) returns (r: Result<seq<Byte>, Error>)
      modifies this
      ensures var fed := FeedOnce(ev, old(buffer), old(kinds), raw, final);
        match r
        case Success(output) => fed == Success((Progress(output, kinds), buffer))
        case Failure(error) => fed == Failure(error)
    {
      buffer := buffer + raw;
      if |buffer| > MAX_FRAME {
        return Failure(FrameExceeded);
      }
      buffer := Normalize(buffer);
      ghost var cut := CutAll(buffer, final);
      ghost var whole := HandleFrames(ev, kinds, cut.frames);
      var output: seq<Byte> := [];
      assert whole.Some? ==> output + whole.value.output == whole.value.output;
      while BlankLine(buffer).Some? || (final && buffer != [])
        invariant CutAll(buffer, final).rest == cut.rest
        invariant whole == Prepend(output, HandleFrames(ev, kinds, CutAll(buffer, final).frames))
        decreases |buffer|
      {
        ghost var text := buffer;
        var end := BlankLine(buffer);
        var frame;
        if end.Some? {
          frame, buffer := buffer[..end.value], buffer[end.value + 2..];
        } else {
          frame, buffer := buffer, [];
        }
        NextFrame(text, final, frame, buffer);
        ghost var before := kinds;
        var ok, skip, lines := RewriteFrame(frame);
        HandleNext(ev, before, frame, CutAll(buffer, final).frames, output);
        if !ok {
          return Failure(InvalidFrame);
        }
        if !skip {
          output := output + (Join(lines) + [LF, LF]);
        } else {
          assert output == output + [];
        }
      }
      assert output + [] == output;
      return Success(output);
    }
  }

  function Prepend(output: seq<Byte>, p: Option<Progress>): Option<Progress> {
    if p.None? then None else Some(Progress(output + p.value.output, p.value.kinds))
  }

  /** One round of the loop takes the first of the frames still to come. */
  lemma NextFrame(text: seq<Byte>, final: bool, frame: seq<Byte>, rest: seq<Byte>)
    requires BlankLine(text).Some? || (final && text != [])
    requires if BlankLine(text).Some? then frame == text[..BlankLine(text).value] && rest == text[BlankLine(text).value + 2..]
             else frame == text && rest == []
    ensures CutAll(text, final) == Cut([frame] + CutAll(rest, final).frames, CutAll(rest, final).rest)
  {
  }

  lemma HandleNext(ev: Handler, kinds: Kinds, frame: seq<Byte>, more: seq<seq<Byte>>, output: seq<Byte>)
    ensures var framed := HandleFrame(ev, kinds, frame);
      Prepend(output, HandleFrames(ev, kinds, [frame] + more))
      == if framed.None? then None else Prepend(output + FrameOutput(framed.value), HandleFrames(ev, framed.value.kinds, more))
  {
    assert ([frame] + more)[1..] == more;
    var framed := HandleFrame(ev, kinds, frame);
    if framed.Some? && HandleFrames(ev, framed.value.kinds, more).Some? {
      var tail := HandleFrames(ev, framed.value.kinds, more).value.output;
      assert output + (FrameOutput(framed.value) + tail) == output + FrameOutput(framed.value) + tail;
    }
  }

  // ---------------------------------------------------------------- streams in chunks

  /** Feed chunks one after another, the last one as final: all output, and the final kinds. */
  function FeedAll(ev: Handler, buffer: seq<Byte>, kinds: Kinds, chunks: seq<seq<Byte>>): Result<Progress, Error>
    requires chunks != []
    decreases |chunks|
  {
    var fed := FeedOnce(ev, buffer, kinds, chunks[0], |chunks| == 1);
    if fed.Failure? then Failure(fed.error)
    else if |chunks| == 1 then Success(fed.value.0)
    else
      var more := FeedAll(ev, fed.value.1, fed.value.0.kinds, chunks[1..]);
      if more.Failure? then more else Success(Progress(fed.value.0.output + more.value.output, more.value.kinds))
  }

  function Concat(chunks: seq<seq<Byte>>): seq<Byte> {
    if chunks == [] then [] else chunks[0] + Concat(chunks[1..])
  }

  /** The stream rewritten in one piece, without the frame limit. */
  function Rewrite(ev: Handler, stream: seq<Byte>): Result<Progress, Error> {
    var p := HandleFrames(ev, map[], CutAll(Normalize(stream), true).frames);
    if p.None? then Failure(InvalidFrame) else Success(p.value)
  }

  /** No CR stands directly before a CR LF. */
  predicate NoCrCrLf(b: seq<Byte>) {
    |b| < 3 || (!(b[0] == CR && b[1] == CR && b[2] == LF) && NoCrCrLf(b[1..]))
  }

  predicate NoCrLf(b: seq<Byte>) {
    |b| < 2 || (!(b[0] == CR && b[1] == LF) && NoCrLf(b[1..]))
  }

  // ---------------------------------------------------------------- normalizing twice

  lemma {:induction false} NoCrCrLfPrefix(s: seq<Byte>, c: seq<Byte>)
    requires NoCrCrLf(s + c)
    ensures NoCrCrLf(s)
    decreases |s|
  {
    if |s| >= 3 {
      assert (s + c)[1..] == s[1..] + c;
      NoCrCrLfPrefix(s[1..], c);
    }
  }

  lemma {:induction false} NoCrLfSplit(p: seq<Byte>, b: seq<Byte>)
    requires NoCrLf(p + b)
    ensures NoCrLf(p) && NoCrLf(b)
    decreases |p|
  {
    if p == [] {
      assert p + b == b;
    } else {
      assert (p + b)[1..] == p[1..] + b;
      NoCrLfSplit(p[1..], b);
    }
  }

  lemma NormalizeHead(b: seq<Byte>)
    requires b != []
    ensures Normalize(b) != []
    ensures Normalize(b)[0] == (if |b| >= 2 && b[0] == CR && b[1] == LF then LF else b[0])
  {
  }

  lemma NormalizeCons(x: Byte, b: seq<Byte>)
    requires x != CR || b == [] || b[0] != LF
    ensures Normalize([x] + b) == [x] + Normalize(b)
  {
    assert ([x] + b)[1..] == b;
  }

  lemma NormalizePair(b: seq<Byte>)
    ensures Normalize([CR, LF] + b) == [LF] + Normalize(b)
  {
    assert ([CR, LF] + b)[2..] == b;
  }

  /** Bytes already normalized may be normalized again together with what follows. */
  lemma {:induction false} NormalizeAgain(s: seq<Byte>, c: seq<Byte>)
    requires NoCrCrLf(s + c)
    ensures Normalize(s + c) == Normalize(Normalize(s) + c)
    decreases |s|
  {
    if |s| < 2 {
    } else if s[0] == CR && s[1] == LF {
      var t := s[2..];
      assert s == [CR, LF] + t && s + c == [CR, LF] + (t + c);
      NoCrCrLfTails(t + c, s + c);
      NormalizeAgain(t, c);
      NormalizeAgainPair(t, c);
    } else {
      var t := s[1..];
      assert s == [s[0]] + t && s + c == [s[0]] + (t + c);
      NoCrCrLfTail([s[0]], t + c, s + c);
      NormalizeAgain(t, c);
      NormalizeAgainByte(s[0], t, c, s + c);
    }
  }

  lemma NoCrCrLfTail(x: seq<Byte>, b: seq<Byte>, whole: seq<Byte>)
    requires |x| == 1 && whole == x + b && NoCrCrLf(whole)
    ensures NoCrCrLf(b)
  {
    assert whole[1..] == b;
  }

  lemma NoCrCrLfTails(b: seq<Byte>, whole: seq<Byte>)
    requires whole == [CR, LF] + b && NoCrCrLf(whole)
    ensures NoCrCrLf(b)
  {
    assert whole == [CR] + ([LF] + b);
    NoCrCrLfTail([CR], [LF] + b, whole);
    NoCrCrLfTail([LF], b, [LF] + b);
  }

  lemma NormalizeAgainPair(t: seq<Byte>, c: seq<Byte>)
    requires Normalize(t + c) == Normalize(Normalize(t) + c)
    ensures Normalize([CR, LF] + (t + c)) == Normalize(Normalize([CR, LF] + t) + c)
  {
    NormalizePair(t + c);
    NormalizePair(t);
    assert [LF] + Normalize(t) + c == [LF] + (Normalize(t) + c);
    NormalizeCons(LF, Normalize(t) + c);
  }

  lemma NormalizeAgainByte(x: Byte, t: seq<Byte>, c: seq<Byte>, whole: seq<Byte>)
    requires t != [] && !(x == CR && t[0] == LF)
    requires whole == [x] + (t + c) && NoCrCrLf(whole)
    requires Normalize(t + c) == Normalize(Normalize(t) + c)
    ensures Normalize(whole) == Normalize(Normalize([x] + t) + c)
  {
    NormalizeHead(t);
    assert x == CR ==> Normalize(t)[0] != LF by {
      assert |t| >= 2 ==> whole[1] == t[0] && whole[2] == t[1];
    }
    NormalizeCons(x, t);
    assert (t + c)[0] == t[0] && (Normalize(t) + c)[0] == Normalize(t)[0];
    NormalizeCons(x, t + c);
    assert [x] + Normalize(t) + c == [x] + (Normalize(t) + c);
    NormalizeCons(x, Normalize(t) + c);
  }

  lemma {:induction false} NormalizedNoCrLf(s: seq<Byte>)
    requires NoCrCrLf(s)
    ensures NoCrLf(Normalize(s))
    decreases |s|
  {
    if |s| >= 2 {
      if s[0] == CR && s[1] == LF {
        assert s[1..][1..] == s[2..];
        NormalizedNoCrLf(s[2..]);
        assert Normalize(s)[1..] == Normalize(s[2..]);
      } else {
        NormalizedNoCrLf(s[1..]);
        NormalizeHead(s[1..]);
        assert Normalize(s)[1..] == Normalize(s[1..]);
      }
    }
  }

  /** Normalized bytes that end in LF keep apart from what follows. */
  lemma {:induction false} NormalizePrefix(p: seq<Byte>, b: seq<Byte>)
    requires NoCrLf(p) && (p == [] || p[|p| - 1] == LF)
    ensures Normalize(p + b) == p + Normalize(b)
    decreases |p|
  {
    if p == [] {
      assert p + b == b;
    } else {
      var q := p[1..];
      assert p + b == [p[0]] + (q + b);
      NormalizePrefix(q, b);
      NormalizeCons(p[0], q + b);
      assert [p[0]] + (q + Normalize(b)) == p + Normalize(b);
    }
  }

  // ---------------------------------------------------------------- frames of a longer text

  /** The first empty line after `f`. */
  lemma {:induction false} BlankLineAt(f: seq<Byte>, z: seq<Byte>)
    requires BlankLine(f + [LF, LF]) == Some(|f|)
    ensures BlankLine(f + [LF, LF] + z) == Some(|f|)
    decreases |f|
  {
    var x := f + [LF, LF] + z;
    if f != [] {
      assert x[1..] == f[1..] + [LF, LF] + z;
      assert (f + [LF, LF])[1..] == f[1..] + [LF, LF];
      assert x[0] == (f + [LF, LF])[0] && x[1] == (f + [LF, LF])[1];
      BlankLineAt(f[1..], z);
    }
  }

  lemma {:induction false} BlankLineIs(x: seq<Byte>)
    requires BlankLine(x).Some?
    ensures BlankLine(x[..BlankLine(x).value] + [LF, LF]) == BlankLine(x)
    decreases |x|
  {
    var i := BlankLine(x).value;
    if i > 0 {
      BlankLineIs(x[1..]);
      var y := x[..i] + [LF, LF];
      assert y[1..] == x[1..][..i - 1] + [LF, LF];
      assert y[0] == x[0] && y[1] == x[1];
    }
  }

  /** A frame and its empty line are cut off first. */
  lemma CutFirst(f: seq<Byte>, z: seq<Byte>)
    requires BlankLine(f + [LF, LF]) == Some(|f|)
    ensures CutFrames(f + [LF, LF] + z) == FrameBefore(f, CutFrames(z))
  {
    BlankLineAt(f, z);
    var x := f + [LF, LF] + z;
    assert x[..|f|] == f && x[|f| + 2..] == z;
  }

  /** The frames of `whole` are those of `x`, then those of `y`. */
  predicate CutInTwo(whole: Cut, x: Cut, y: Cut) {
    whole == Cut(x.frames + y.frames, y.rest)
  }

  function FrameBefore(f: seq<Byte>, c: Cut): Cut {
    Cut([f] + c.frames, c.rest)
  }

  lemma CutInTwoLater(f: seq<Byte>, whole: Cut, x: Cut, y: Cut)
    requires CutInTwo(whole, x, y)
    ensures CutInTwo(FrameBefore(f, whole), FrameBefore(f, x), y)
  {
    assert [f] + (x.frames + y.frames) == ([f] + x.frames) + y.frames;
  }

  /** Cutting normalized text `n`, then what is left together with `c`, cuts the whole. */
  lemma {:induction false} CutContinues(n: seq<Byte>, c: seq<Byte>)
    requires NoCrLf(n)
    ensures CutInTwo(CutFrames(Normalize(n + c)), CutFrames(n), CutFrames(Normalize(CutFrames(n).rest + c)))
    decreases |n|
  {
    var end := BlankLine(n);
    if end.None? {
      var y := CutFrames(Normalize(n + c));
      assert CutFrames(n) == Cut([], n) && [] + y.frames == y.frames;
    } else {
      var f, m := n[..end.value], n[end.value + 2..];
      BlankLineIs(n);
      assert n == f + [LF, LF] + m;
      NoCrLfSplit(f + [LF, LF], m);
      CutContinues(m, c);
      CutFirst(f, m);
      CutLonger(f, m, c, n);
      CutInTwoLater(f, CutFrames(Normalize(m + c)), CutFrames(m), CutFrames(Normalize(CutFrames(m).rest + c)));
    }
  }

  lemma CutLonger(f: seq<Byte>, m: seq<Byte>, c: seq<Byte>, n: seq<Byte>)
    requires n == f + [LF, LF] + m && NoCrLf(f + [LF, LF])
    requires BlankLine(f + [LF, LF]) == Some(|f|)
    ensures CutFrames(Normalize(n + c)) == FrameBefore(f, CutFrames(Normalize(m + c)))
  {
    FrameApart(f, m, c, n);
    CutFirst(f, Normalize(m + c));
  }

  lemma FrameApart(f: seq<Byte>, m: seq<Byte>, c: seq<Byte>, n: seq<Byte>)
    requires n == f + [LF, LF] + m && NoCrLf(f + [LF, LF])
    ensures Normalize(n + c) == f + [LF, LF] + Normalize(m + c)
  {
    LastIsLf(f);
    assert n + c == f + [LF, LF] + (m + c);
    NormalizePrefix(f + [LF, LF], m + c);
  }

  lemma LastIsLf(f: seq<Byte>)
    ensures var head := f + [LF, LF]; head != [] && head[|head| - 1] == LF
  {
  }

  lemma CutAllContinues(n: seq<Byte>, c: seq<Byte>, final: bool)
    requires NoCrLf(n)
    ensures var x := CutFrames(n); var y := CutAll(Normalize(x.rest + c), final);
      CutAll(Normalize(n + c), final) == Cut(x.frames + y.frames, y.rest)
  {
    CutContinues(n, c);
    var x, y := CutFrames(n), CutFrames(Normalize(CutFrames(n).rest + c));
    assert x.frames + (y.frames + [y.rest]) == (x.frames + y.frames) + [y.rest];
  }

  lemma {:induction false} HandleConcat(ev: Handler, kinds: Kinds, x: seq<seq<Byte>>, y: seq<seq<Byte>>)
    ensures var p := HandleFrames(ev, kinds, x);
      HandleFrames(ev, kinds, x + y) == if p.None? then None else Prepend(p.value.output, HandleFrames(ev, p.value.kinds, y))
    decreases |x|
  {
    if x == [] {
      assert x + y == y;
      var q := HandleFrames(ev, kinds, y);
      assert q.Some? ==> [] + q.value.output == q.value.output;
    } else {
      assert x == [x[0]] + x[1..] && x + y == [x[0]] + (x[1..] + y);
      HandleNext(ev, kinds, x[0], x[1..], []);
      HandleNext(ev, kinds, x[0], x[1..] + y, []);
      PrependEmpty(HandleFrames(ev, kinds, x + y));
      PrependEmpty(HandleFrames(ev, kinds, x));
      var framed := HandleFrame(ev, kinds, x[0]);
      if framed.Some? {
        HandleConcat(ev, framed.value.kinds, x[1..], y);
        var p := HandleFrames(ev, framed.value.kinds, x[1..]);
        if p.Some? {
          PrependTwice([] + FrameOutput(framed.value), p.value.output, HandleFrames(ev, p.value.kinds, y));
        }
      }
    }
  }

  lemma PrependEmpty(p: Option<Progress>)
    ensures Prepend([], p) == p
  {
    assert p.Some? ==> [] + p.value.output == p.value.output;
  }

  lemma PrependTwice(a: seq<Byte>, b: seq<Byte>, p: Option<Progress>)
    ensures Prepend(a, Prepend(b, p)) == Prepend(a + b, p)
  {
    assert p.Some? ==> a + (b + p.value.output) == a + b + p.value.output;
  }

  // ---------------------------------------------------------------- chunk invariance

  /** After the bytes `s`, the rewriter has handled every complete frame of the normalized
      bytes, and its buffer holds the rest. */
  ghost predicate Consumed(ev: Handler, s: seq<Byte>, p: Progress, buffer: seq<Byte>) {
    && HandleFrames(ev, map[], CutFrames(Normalize(s)).frames) == Some(p)
    && CutFrames(Normalize(s)).rest == buffer
  }

  /** Feeding `c` after `s` handles exactly the frames the whole text has besides. */
  lemma FeedContinues(ev: Handler, s: seq<Byte>, p: Progress, buffer: seq<Byte>, c: seq<Byte>, final: bool)
    requires Consumed(ev, s, p, buffer) && NoCrCrLf(s + c)
    ensures var cut := CutAll(Normalize(buffer + c), final); var all := CutAll(Normalize(s + c), final);
      && all.rest == cut.rest
      && HandleFrames(ev, map[], all.frames) == Prepend(p.output, HandleFrames(ev, p.kinds, cut.frames))
  {
    NoCrCrLfPrefix(s, c);
    NormalizedNoCrLf(s);
    NormalizeAgain(s, c);
    CutAllContinues(Normalize(s), c, final);
    HandleConcat(ev, map[], CutFrames(Normalize(s)).frames, CutAll(Normalize(buffer + c), final).frames);
  }

  /** What the whole stream gives, if feeding the rest of it after progress `p` gives `fed`. */
  ghost predicate Completes(ev: Handler, p: Progress, fed: Result<Progress, Error>, stream: seq<Byte>) {
    || fed == Failure(FrameExceeded)
    || Rewrite(ev, stream) == if fed.Failure? then fed else Success(Progress(p.output + fed.value.output, fed.value.kinds))
  }

  lemma {:induction false} ChunksContinue(ev: Handler, s: seq<Byte>, p: Progress, buffer: seq<Byte>, chunks: seq<seq<Byte>>)
    requires chunks != [] && Consumed(ev, s, p, buffer) && NoCrCrLf(s + Concat(chunks))
    ensures Completes(ev, p, FeedAll(ev, buffer, p.kinds, chunks), s + Concat(chunks))
    decreases |chunks|
  {
    var c := chunks[0];
    if |chunks| == 1 {
      assert Concat(chunks[1..]) == [] && s + Concat(chunks) == s + c;
      LastChunk(ev, s, p, buffer, c);
    } else {
      var more := chunks[1..];
      assert s + Concat(chunks) == (s + c) + Concat(more);
      OneChunk(ev, s, p, buffer, c, Concat(more));
      var fed := FeedOnce(ev, buffer, p.kinds, c, false);
      if fed.Success? {
        var q := Progress(p.output + fed.value.0.output, fed.value.0.kinds);
        ChunksContinue(ev, s + c, q, fed.value.1, more);
        CompletesLater(ev, p, fed.value.0, FeedAll(ev, fed.value.1, fed.value.0.kinds, more), s + c + Concat(more));
      }
    }
  }

  lemma CompletesLater(ev: Handler, p: Progress, first: Progress, later: Result<Progress, Error>, stream: seq<Byte>)
    requires Completes(ev, Progress(p.output + first.output, first.kinds), later, stream)
    ensures Completes(ev, p,
                      if later.Failure? then later else Success(Progress(first.output + later.value.output, later.value.kinds)),
                      stream)
  {
    assert later.Success? ==> p.output + first.output + later.value.output == p.output + (first.output + later.value.output);
  }

  lemma LastChunk(ev: Handler, s: seq<Byte>, p: Progress, buffer: seq<Byte>, c: seq<Byte>)
    requires Consumed(ev, s, p, buffer) && NoCrCrLf(s + c)
    ensures var fed := FeedOnce(ev, buffer, p.kinds, c, true);
      Completes(ev, p, if fed.Failure? then Failure(fed.error) else Success(fed.value.0), s + c)
  {
    FeedContinues(ev, s, p, buffer, c, true);
  }

  /** A chunk that is not the last: either the buffer overflows, or an event fails and so does
      the whole stream, or the rewriter has now consumed `s + c`. */
  lemma OneChunk(ev: Handler, s: seq<Byte>, p: Progress, buffer: seq<Byte>, c: seq<Byte>, t: seq<Byte>)
    requires Consumed(ev, s, p, buffer) && NoCrCrLf(s + c + t)
    ensures var fed := FeedOnce(ev, buffer, p.kinds, c, false);
      match fed
      case Failure(e) => Completes(ev, p, Failure(e), s + c + t)
      case Success(v) => Consumed(ev, s + c, Progress(p.output + v.0.output, v.0.kinds), v.1)
  {
    NoCrCrLfPrefix(s + c, t);
    FeedContinues(ev, s, p, buffer, c, false);
    if FeedOnce(ev, buffer, p.kinds, c, false) == Failure(InvalidFrame) {
      RaiseSpreads(ev, s + c, t);
    }
  }

  /** A failure on the complete frames so far is a failure of the whole stream. */
  lemma RaiseSpreads(ev: Handler, s: seq<Byte>, t: seq<Byte>)
    requires NoCrCrLf(s + t) && HandleFrames(ev, map[], CutFrames(Normalize(s)).frames).None?
    ensures Rewrite(ev, s + t) == Failure(InvalidFrame)
  {
    NoCrCrLfPrefix(s, t);
    NormalizedNoCrLf(s);
    NormalizeAgain(s, t);
    CutAllContinues(Normalize(s), t, true);
    var n := CutFrames(Normalize(s));
    HandleConcat(ev, map[], n.frames, CutAll(Normalize(n.rest + t), true).frames);
  }

  /** Chunk invariance: a stream without CR CR LF, split into chunks in any way, either hits
      the buffer limit or gives the output, the kinds and the failure of the whole stream. */
  lemma ChunkInvariance(ev: Handler, chunks: seq<seq<Byte>>)
    requires chunks != [] && NoCrCrLf(Concat(chunks))
    ensures var fed := FeedAll(ev, [], map[], chunks);
      fed == Failure(FrameExceeded) || fed == Rewrite(ev, Concat(chunks))
  {
    assert [] + Concat(chunks) == Concat(chunks);
    var start := Progress([], map[]);
    assert Consumed(ev, [], start, []);
    ChunksContinue(ev, [], start, [], chunks);
    var fed := FeedAll(ev, [], map[], chunks);
    if fed.Success? {
      assert [] + fed.value.output == fed.value.output;
    }
  }
}
