/**
 The line framing of the provider's server-sent event streams. Bytes arrive in network chunks of
 any size; complete lines are handed to a line handler, the unfinished line is kept.
 */
module SseFraming {

  newtype byte = b: int | 0 <= b < 256

  const NEWLINE: byte := 10
  const MAX_SSE_FRAME_BYTES: nat := 256 * 1024

  datatype Failure =
    | FrameTooLarge
    | EndedMidFrame
    | Transport(timeout: bool)
    | Rejected(reason: string)

  /** How a stream stops: it ends, or the connection fails. */
  datatype Ending = Ended | Dropped(timeout: bool)

  /** What a line handler makes of one line. */
  datatype Verdict<+S> = Accept(state: S) | Reject(state: S, why: Failure)

  /** A stream that is being read, with the unfinished line, or that broke. */
  datatype Reader<+S> = Open(rest: seq<byte>, state: S) | Broken(state: S, why: Failure)

  function Flatten(chunks: seq<seq<byte>>): seq<byte> {
    if chunks == [] then [] else Flatten(chunks[..|chunks| - 1]) + chunks[|chunks| - 1]
  }

  function NewlineAt(bs: seq<byte>): (i: nat)
    requires NEWLINE in bs
    ensures i < |bs| && bs[i] == NEWLINE && forall j | 0 <= j < i :: bs[j] != NEWLINE
  {
    if bs[0] == NEWLINE then 0 else 1 + NewlineAt(bs[1..])
  }

  // ---------------------------------------------------------------------------
  // The framing of a whole stream, with no chunks in sight.

  /** The complete lines of a byte string, newlines included, and what follows the last newline. */
  function Lines(bs: seq<byte>): seq<seq<byte>>
    decreases |bs|
  {
    if NEWLINE !in bs then []
    else var i := NewlineAt(bs); [bs[..i + 1]] + Lines(bs[i + 1..])
  }

  function Rest(bs: seq<byte>): seq<byte>
    decreases |bs|
  {
    if NEWLINE !in bs then bs else Rest(bs[NewlineAt(bs) + 1..])
  }

  /** Handle lines in order up to the first that is too long or that the handler rejects. */
  function HandleLines<S>(lines: seq<seq<byte>>, s: S, f: (S, seq<byte>) -> Verdict<S>): Verdict<S> {
    if lines == [] then Accept(s)
    else if |lines[0]| > MAX_SSE_FRAME_BYTES then Reject(s, FrameTooLarge)
    else match f(s, lines[0])
      case Accept(s') => HandleLines(lines[1..], s', f)
      case Reject(s', why) => Reject(s', why)
  }

  /** The outcome for a byte string that arrived so far, however it was split. */
  function Frames<S>(bs: seq<byte>, s: S, f: (S, seq<byte>) -> Verdict<S>): Reader<S> {
    match HandleLines(Lines(bs), s, f)
    case Reject(s', why) => Broken(s', why)
    case Accept(s') => if |Rest(bs)| > MAX_SSE_FRAME_BYTES then Broken(s', FrameTooLarge) else Open(Rest(bs), s')
  }

  /** A line ends in a newline and holds no other. */
  predicate IsLine(l: seq<byte>) {
    |l| > 0 && l[|l| - 1] == NEWLINE && forall j | 0 <= j < |l| - 1 :: l[j] != NEWLINE
  }

  /** Nothing is lost or reordered. */
  lemma {:induction false} LinesCutTheBytes(bs: seq<byte>)
    ensures Flatten(Lines(bs)) + Rest(bs) == bs
    decreases |bs|
  {
    if NEWLINE !in bs {
      NoLines(bs);
    } else {
      var i := NewlineAt(bs);
      var h, t := bs[..i + 1], bs[i + 1..];
      LinesCutTheBytes(t);
      CutFront(h, Lines(t), Rest(t), t);
      FirstLine(bs);
      CutAt(bs, i + 1);
    }
  }

  lemma {:induction false} FirstLine(bs: seq<byte>)
    requires NEWLINE in bs
    ensures var i := NewlineAt(bs) + 1; Lines(bs) == [bs[..i]] + Lines(bs[i..]) && Rest(bs) == Rest(bs[i..])
  {
  }

  lemma {:induction false} CutAt(bs: seq<byte>, i: nat)
    requires i <= |bs|
    ensures bs[..i] + bs[i..] == bs
  {
  }

  lemma {:induction false} NoLines(bs: seq<byte>)
    requires NEWLINE !in bs
    ensures Flatten(Lines(bs)) + Rest(bs) == bs
  {
    assert Flatten(Lines(bs)) == [];
  }

  lemma {:induction false} CutFront(head: seq<byte>, lines: seq<seq<byte>>, rest: seq<byte>, tail: seq<byte>)
    requires Flatten(lines) + rest == tail
    ensures Flatten([head] + lines) + rest == head + tail
  {
    FlattenFront(head, lines);
  }

  lemma {:induction false} RestIsUnfinished(bs: seq<byte>)
    ensures NEWLINE !in Rest(bs)
    decreases |bs|
  {
    if NEWLINE in bs {
      RestIsUnfinished(bs[NewlineAt(bs) + 1..]);
    }
  }

  lemma {:induction false} LinesAreLines(bs: seq<byte>)
    ensures forall l | l in Lines(bs) :: IsLine(l)
    decreases |bs|
  {
    if NEWLINE in bs {
      LinesAreLines(bs[NewlineAt(bs) + 1..]);
    }
  }

  /** Cutting behind every newline is unambiguous: any such cut is `Lines` and `Rest`. */
  lemma {:induction false} LinesAreTheOnlyCut(lines: seq<seq<byte>>, rest: seq<byte>)
    requires NEWLINE !in rest && forall l | l in lines :: IsLine(l)
    ensures Lines(Flatten(lines) + rest) == lines && Rest(Flatten(lines) + rest) == rest
    decreases |lines|
  {
    if lines != [] {
      assert lines == [lines[0]] + lines[1..];
      assert IsLine(lines[0]) by { assert lines[0] in lines; }
      FlattenFront(lines[0], lines[1..]);
      LinesAreTheOnlyCut(lines[1..], rest);
      var tail := Flatten(lines[1..]) + rest;
      var bs := Flatten(lines) + rest;
      assert bs == lines[0] + tail;
      assert bs[|lines[0]| - 1] == NEWLINE;
      assert NewlineAt(bs) == |lines[0]| - 1;
      assert bs[..|lines[0]|] == lines[0] && bs[|lines[0]|..] == tail;
    }
  }

  lemma {:induction false} FlattenFront(c: seq<byte>, cs: seq<seq<byte>>)
    ensures Flatten([c] + cs) == c + Flatten(cs)
    decreases |cs|
  {
    if cs == [] {
      assert [c] + cs == [c] && [c][..0] == [];
      assert Flatten([c]) == Flatten([]) + c;
    } else {
      assert ([c] + cs)[..|[c] + cs| - 1] == [c] + cs[..|cs| - 1];
      FlattenFront(c, cs[..|cs| - 1]);
    }
  }

  // ---------------------------------------------------------------------------
  // Chunk by chunk.

  /** One more chunk: the complete lines of what was kept and what arrived are handled. */
  function Feed<S>(r: Reader<S>, chunk: seq<byte>, f: (S, seq<byte>) -> Verdict<S>): Reader<S> {
    if r.Broken? then r else Frames(r.rest + chunk, r.state, f)
  }

  function FeedAll<S>(s: S, chunks: seq<seq<byte>>, f: (S, seq<byte>) -> Verdict<S>): Reader<S> {
    if chunks == [] then Open([], s) else Feed(FeedAll(s, chunks[..|chunks| - 1], f), chunks[|chunks| - 1], f)
  }

  lemma {:induction false} SplitConcat(a: seq<byte>, b: seq<byte>)
    ensures Lines(a + b) == Lines(a) + Lines(Rest(a) + b)
    ensures Rest(a + b) == Rest(Rest(a) + b)
    decreases |a|
  {
    if NEWLINE in a {
      var i := NewlineAt(a);
      var n := NewlineAt(a + b);
      assert (a + b)[i] == NEWLINE;
      assert n == i;
      assert (a + b)[..i + 1] == a[..i + 1];
      assert (a + b)[i + 1..] == a[i + 1..] + b;
      SplitConcat(a[i + 1..], b);
    }
  }

  lemma {:induction false} HandleConcat<S>(xs: seq<seq<byte>>, ys: seq<seq<byte>>, s: S,
                                           f: (S, seq<byte>) -> Verdict<S>)
    ensures HandleLines(xs + ys, s, f) == match HandleLines(xs, s, f)
                                          case Accept(s') => HandleLines(ys, s', f)
                                          case Reject(s', why) => Reject(s', why)
    decreases |xs|
  {
    if xs == [] {
      assert xs + ys == ys;
    } else {
      assert (xs + ys)[1..] == xs[1..] + ys;
      if |xs[0]| <= MAX_SSE_FRAME_BYTES && f(s, xs[0]).Accept? {
        HandleConcat(xs[1..], ys, f(s, xs[0]).state, f);
      }
    }
  }

  /** An unfinished line over the cap is the same failure as the finished line it grows into. */
  lemma {:induction false} LongRestBreaks<S>(rest: seq<byte>, b: seq<byte>, s: S, f: (S, seq<byte>) -> Verdict<S>)
    requires NEWLINE !in rest && |rest| > MAX_SSE_FRAME_BYTES
    ensures Frames(rest + b, s, f) == Broken(s, FrameTooLarge)
  {
    var bs := rest + b;
    if NEWLINE in bs {
      var i := NewlineAt(bs);
      assert i >= |rest|;
      assert |Lines(bs)[0]| > MAX_SSE_FRAME_BYTES;
    }
  }

  /** Bytes that arrive later continue exactly where the earlier bytes stopped. */
  lemma {:induction false} FramesContinue<S>(a: seq<byte>, b: seq<byte>, s: S, f: (S, seq<byte>) -> Verdict<S>)
    ensures Feed(Frames(a, s, f), b, f) == Frames(a + b, s, f)
  {
    SplitConcat(a, b);
    HandleConcat(Lines(a), Lines(Rest(a) + b), s, f);
    var h := HandleLines(Lines(a), s, f);
    if h.Accept? && |Rest(a)| > MAX_SSE_FRAME_BYTES {
      RestIsUnfinished(a);
      LongRestBreaks(Rest(a), b, h.state, f);
    }
  }

  /** The chunks do not matter: frames, their order, and success or failure come from the bytes. */
  lemma {:induction false} ChunksDoNotMatter<S>(s: S, chunks: seq<seq<byte>>, f: (S, seq<byte>) -> Verdict<S>)
    ensures FeedAll(s, chunks, f) == Frames(Flatten(chunks), s, f)
    decreases |chunks|
  {
    if chunks != [] {
      var before := chunks[..|chunks| - 1];
      ChunksDoNotMatter(s, before, f);
      FramesContinue(Flatten(before), chunks[|chunks| - 1], s, f);
    }
  }

  /** Between chunks, the kept line holds no newline and never exceeds the cap. */
  lemma {:induction false} KeptLineIsBounded<S>(s: S, chunks: seq<seq<byte>>, f: (S, seq<byte>) -> Verdict<S>)
    ensures var r := FeedAll(s, chunks, f);
            r.Open? ==> |r.rest| <= MAX_SSE_FRAME_BYTES && NEWLINE !in r.rest
  {
    ChunksDoNotMatter(s, chunks, f);
    RestIsUnfinished(Flatten(chunks));
  }

  /** A property every accepted or rejected line keeps holds of the state a stream is left in. */
  lemma {:induction false} HandleKeeps<S(!new)>(lines: seq<seq<byte>>, s: S, f: (S, seq<byte>) -> Verdict<S>,
                                         p: S -> bool)
    requires p(s) && forall x, l | p(x) :: p(f(x, l).state)
    ensures p(HandleLines(lines, s, f).state)
    decreases |lines|
  {
    if lines != [] && |lines[0]| <= MAX_SSE_FRAME_BYTES {
      assert p(f(s, lines[0]).state);
      if f(s, lines[0]).Accept? {
        HandleKeeps(lines[1..], f(s, lines[0]).state, f, p);
      }
    }
  }

  // ---------------------------------------------------------------------------
  // The reading loop.

  /** Drain the complete lines of the buffer. */
  method DrainLines<S>(buffer: seq<byte>, s: S, f: (S, seq<byte>) -> Verdict<S>) returns (r: Reader<S>)
    ensures match HandleLines(Lines(buffer), s, f)
            case Accept(s') => r == Open(Rest(buffer), s')
            case Reject(s', why) => r == Broken(s', why)
  {
    var left, state := buffer, s;
    while NEWLINE in left
      invariant HandleLines(Lines(left), state, f) == HandleLines(Lines(buffer), s, f)
      invariant Rest(left) == Rest(buffer)
      decreases |left|
    {
      var index := NewlineAt(left);
      if index + 1 > MAX_SSE_FRAME_BYTES {
        return Broken(state, FrameTooLarge);
      }
      var line := left[..index + 1];
      assert Lines(left) == [line] + Lines(left[index + 1..]);
      assert Lines(left)[1..] == Lines(left[index + 1..]);
      left := left[index + 1..];
      match f(state, line)
      case Accept(s') => state := s';
      case Reject(s', why) => return Broken(s', why);
    }
    r := Open(left, state);
  }

  /** Read the chunks of a stream until they end or the stream breaks. */
  method ReadChunks<S>(chunks: seq<seq<byte>>, s: S, f: (S, seq<byte>) -> Verdict<S>) returns (r: Reader<S>)
    ensures r == FeedAll(s, chunks, f) == Frames(Flatten(chunks), s, f)
    ensures r.Open? ==> |r.rest| <= MAX_SSE_FRAME_BYTES
  {
    var buffer, state: S := [], s;
    for n := 0 to |chunks|
      invariant FeedAll(s, chunks[..n], f) == Open(buffer, state)
      invariant |buffer| <= MAX_SSE_FRAME_BYTES
    {
      assert chunks[..n + 1][..n] == chunks[..n];
      var drained := DrainLines(buffer + chunks[n], state, f);
      if drained.Broken? {
        StaysBroken(s, chunks, n + 1, f);
        ChunksDoNotMatter(s, chunks, f);
        return drained;
      }
      buffer, state := drained.rest, drained.state;
      if |buffer| > MAX_SSE_FRAME_BYTES {
        StaysBroken(s, chunks, n + 1, f);
        ChunksDoNotMatter(s, chunks, f);
        return Broken(state, FrameTooLarge);
      }
    }
    assert chunks[..|chunks|] == chunks;
    ChunksDoNotMatter(s, chunks, f);
    r := Open(buffer, state);
  }

  lemma {:induction false} StaysBroken<S>(s: S, chunks: seq<seq<byte>>, n: nat, f: (S, seq<byte>) -> Verdict<S>)
    requires n <= |chunks| && FeedAll(s, chunks[..n], f).Broken?
    ensures FeedAll(s, chunks, f) == FeedAll(s, chunks[..n], f)
    decreases |chunks|
  {
    if n == |chunks| {
      assert chunks[..n] == chunks;
    } else {
      assert chunks[..|chunks| - 1][..n] == chunks[..n];
      StaysBroken(s, chunks[..|chunks| - 1], n, f);
    }
  }
}
