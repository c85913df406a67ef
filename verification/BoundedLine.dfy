/** The bounded line reader of the tool bridge: frames of standard input, whatever its buffering. */
module BoundedLine {
  import opened Wrappers
  import opened SseFraming

  /** What one call returns: a frame, or a marker for one over the cap, the end, or an I/O error. */
  datatype Read = Frame(line: seq<byte>, tooLarge: bool) | End | Failed

  /** What a line amounts to: itself if it fits, otherwise only the marker. */
  function Capped(line: seq<byte>, cap: nat): Read {
    if |line| <= cap then Frame(line, false) else Frame([], true)
  }

  function CappedAll(lines: seq<seq<byte>>, cap: nat): seq<Read> {
    if lines == [] then [] else [Capped(lines[0], cap)] + CappedAll(lines[1..], cap)
  }

  /** The frames of an input: its lines, then a last line without newline, then the end or the error. */
  function FramesOf(bs: seq<byte>, fails: bool, cap: nat): seq<Read> {
    CappedAll(Lines(bs), cap) + LastFrames(Rest(bs), fails, cap)
  }

  function LastFrames(rest: seq<byte>, fails: bool, cap: nat): seq<Read> {
    if fails then [Failed] else if rest == [] then [End] else [Capped(rest, cap), End]
  }

  /** Frame by frame: a line within the cap is returned verbatim, and of a longer one only the marker. */
  lemma {:induction false} FramesTellTheLines(lines: seq<seq<byte>>, cap: nat, k: nat)
    requires k < |lines|
    ensures |CappedAll(lines, cap)| == |lines|
    ensures CappedAll(lines, cap)[k] == if |lines[k]| <= cap then Frame(lines[k], false) else Frame([], true)
    decreases |lines|
  {
    if |lines| > 1 {
      FramesTellTheLines(lines[1..], cap, if k > 0 then k - 1 else 0);
    } else {
      assert lines[1..] == [];
    }
  }

  // ---------------------------------------------------------------------------
  // The line that is held while its parts arrive.

  /** Add a part, unless the line with it would be over the cap: then hold nothing any more. */
  function Grow(held: Read, part: seq<byte>, cap: nat): Read {
    if !held.Frame? || held.tooLarge then held
    else if |held.line| + |part| > cap then Frame([], true)
    else Frame(held.line + part, false)
  }

  function Grown(parts: seq<seq<byte>>, cap: nat): Read {
    if parts == [] then Frame([], false) else Grow(Grown(parts[..|parts| - 1], cap), parts[|parts| - 1], cap)
  }

  lemma {:induction false} GrowCapped(sofar: seq<byte>, part: seq<byte>, cap: nat)
    ensures Grow(Capped(sofar, cap), part, cap) == Capped(sofar + part, cap)
  {
  }

  /** However a line is cut into parts, what is held depends on its bytes alone and is within the cap. */
  lemma {:induction false} HeldLineIsBounded(parts: seq<seq<byte>>, cap: nat)
    ensures Grown(parts, cap) == Capped(Flatten(parts), cap)
    ensures Grown(parts, cap).Frame? && |Grown(parts, cap).line| <= cap
    decreases |parts|
  {
    if parts != [] {
      HeldLineIsBounded(parts[..|parts| - 1], cap);
      GrowCapped(Flatten(parts[..|parts| - 1]), parts[|parts| - 1], cap);
    }
  }

  // ---------------------------------------------------------------------------
  // One call.

  /** The bytes of the next frame. */
  function Next(bs: seq<byte>): seq<byte> {
    if NEWLINE in bs then bs[..NewlineAt(bs) + 1] else bs
  }

  function ReadOne(bs: seq<byte>, fails: bool, cap: nat): Read {
    if NEWLINE !in bs && fails then Failed
    else if bs == [] then End
    else Capped(Next(bs), cap)
  }

  /** One call takes the first of the frames and leaves the input of the others. */
  lemma {:induction false} CallsFollowTheFrames(bs: seq<byte>, fails: bool, cap: nat)
    ensures |Next(bs)| <= |bs|
    ensures FramesOf(bs, fails, cap)
         == if ReadOne(bs, fails, cap).Frame? then [ReadOne(bs, fails, cap)] + FramesOf(bs[|Next(bs)|..], fails, cap)
            else [ReadOne(bs, fails, cap)]
  {
    if NEWLINE in bs {
      FrontLine(bs, fails, cap);
    } else if bs != [] && !fails {
      assert bs[|bs|..] == [];
      var none: seq<byte> := [];
      assert FramesOf(none, fails, cap) == [End];
    }
  }

  lemma {:induction false} FrontLine(bs: seq<byte>, fails: bool, cap: nat)
    requires NEWLINE in bs
    ensures var i := NewlineAt(bs) + 1;
            FramesOf(bs, fails, cap) == [Capped(bs[..i], cap)] + FramesOf(bs[i..], fails, cap)
  {
    var i := NewlineAt(bs) + 1;
    var line, rest := bs[..i], bs[i..];
    LinesFront(bs);
    CappedFront(line, Lines(rest), cap);
    FramesJoined([Capped(line, cap)], CappedAll(Lines(rest), cap), LastFrames(Rest(rest), fails, cap));
  }

  lemma {:induction false} LinesFront(bs: seq<byte>)
    requires NEWLINE in bs
    ensures var i := NewlineAt(bs) + 1; Lines(bs) == [bs[..i]] + Lines(bs[i..]) && Rest(bs) == Rest(bs[i..])
  {
  }

  lemma {:induction false} CappedFront(line: seq<byte>, lines: seq<seq<byte>>, cap: nat)
    ensures CappedAll([line] + lines, cap) == [Capped(line, cap)] + CappedAll(lines, cap)
  {
    assert ([line] + lines)[1..] == lines;
  }

  class BufferedReader {
    /** The fills to come; the first is the one in the buffer. */
    var fills: seq<seq<byte>>
    /** Whether the input ends in an I/O error. */
    const fails: bool

    ghost predicate Valid()
      reads this
    {
      forall i | 0 <= i < |fills| :: fills[i] != []
    }

    ghost function Left(): seq<byte>
      reads this
    {
      Flatten(fills)
    }

    constructor (fills: seq<seq<byte>>, fails: bool)
      requires forall i | 0 <= i < |fills| :: fills[i] != []
      ensures Valid() && this.fills == fills && this.fails == fails
    {
      this.fills := fills;
      this.fails := fails;
    }

    /** The buffer; empty at the end of input, nothing on an I/O error. */
    method FillBuf() returns (buffer: Option<seq<byte>>)
      requires Valid()
      ensures buffer.None? <==> fills == [] && fails
      ensures buffer.Some? && buffer.value == [] ==> fills == []
      ensures buffer.Some? && buffer.value != [] ==> fills != [] && buffer.value == fills[0]
    {
      if |fills| > 0 {
        buffer := Some(fills[0]);
      } else {
        buffer := if fails then None else Some([]);
      }
    }

    method Consume(n: nat)
      requires Valid() && fills != [] && 0 < n <= |fills[0]|
      modifies this
      ensures Valid() && old(Left()) == old(fills[0][..n]) + Left()
    {
      FlattenFront(fills[0], fills[1..]);
      assert fills == [fills[0]] + fills[1..];
      assert fills[0] == fills[0][..n] + fills[0][n..];
      if n == |fills[0]| {
        fills := fills[1..];
      } else {
        FlattenFront(fills[0][n..], fills[1..]);
        fills := [fills[0][n..]] + fills[1..];
      }
    }
  }

  /** The part of a buffer up to its first newline, newline included, or all of it. */
  method PartOf(buffer: seq<byte>) returns (end: nat, terminated: bool)
    requires buffer != []
    ensures 0 < end <= |buffer| && buffer[..end] == Next(buffer)
    ensures terminated <==> NEWLINE in buffer
    ensures terminated <==> buffer[end - 1] == NEWLINE
  {
    end := if NEWLINE in buffer then NewlineAt(buffer) + 1 else |buffer|;
    terminated := buffer[end - 1] == NEWLINE;
  }

  lemma {:induction false} FrameIsComplete(before: seq<byte>, part: seq<byte>, left: seq<byte>, bs: seq<byte>)
    requires NEWLINE !in before && IsLine(part) && bs == before + part + left
    ensures NEWLINE in bs && Next(bs) == before + part && bs[|Next(bs)|..] == left
  {
    var n := |before + part| - 1;
    assert bs[n] == NEWLINE;
    assert NewlineAt(bs) == n;
  }

  lemma {:induction false} PartIsLine(buffer: seq<byte>, end: nat)
    requires 0 < end <= |buffer| && buffer[..end] == Next(buffer)
    ensures NEWLINE in buffer ==> IsLine(buffer[..end])
    ensures NEWLINE !in buffer ==> NEWLINE !in buffer[..end]
  {
  }

  /** The bytes read so far and those left stay the input when a part is consumed. */
  lemma {:induction false} PartMoves(bs: seq<byte>, sofar: seq<byte>, part: seq<byte>, before: seq<byte>,
                                     after: seq<byte>)
    requires sofar + before == bs && before == part + after
    ensures sofar + part + after == bs
  {
  }

  method ReadBoundedLine(reader: BufferedReader, cap: nat) returns (r: Read)
    requires reader.Valid()
    modifies reader
    ensures reader.Valid()
    ensures r == ReadOne(old(reader.Left()), reader.fails, cap)
    ensures r.Frame? ==> reader.Left() == old(reader.Left())[|Next(old(reader.Left()))|..]
    ensures !r.Frame? ==> reader.Left() == []
  {
    var line, tooLarge := [], false;
    ghost var bs, sofar := reader.Left(), [];
    while true
      invariant reader.Valid()
      invariant sofar + reader.Left() == bs && NEWLINE !in sofar
      invariant Frame(line, tooLarge) == Capped(sofar, cap) && |line| <= cap
      decreases |reader.Left()|
    {
      var buffer := reader.FillBuf();
      if buffer.None? || buffer.value == [] {
        assert bs == sofar;
        assert bs[|bs|..] == [];
        if buffer.None? {
          return Failed;
        }
        if line == [] && !tooLarge {
          return End;
        }
        return Frame(line, tooLarge);
      }
      var end, terminated := PartOf(buffer.value);
      PartIsLine(buffer.value, end);
      var part := buffer.value[..end];
      GrowCapped(sofar, part, cap);
      if !tooLarge {
        if |line| + end > cap {
          tooLarge := true;
          line := [];
        } else {
          line := line + part;
        }
      }
      ghost var before := reader.Left();
      reader.Consume(end);
      PartMoves(bs, sofar, part, before, reader.Left());
      if terminated {
        FrameIsComplete(sofar, part, reader.Left(), bs);
        return Frame(line, tooLarge);
      }
      sofar := sofar + part;
    }
  }

  lemma {:induction false} OneMoreFrame(frames: seq<Read>, bs: seq<byte>, fails: bool, cap: nat, all: seq<Read>)
    requires frames + FramesOf(bs, fails, cap) == all
    ensures |Next(bs)| <= |bs|
    ensures var r := ReadOne(bs, fails, cap);
            if r.Frame? then (frames + [r]) + FramesOf(bs[|Next(bs)|..], fails, cap) == all && Next(bs) != []
            else frames + [r] == all
  {
    CallsFollowTheFrames(bs, fails, cap);
    var r := ReadOne(bs, fails, cap);
    if r.Frame? {
      FramesJoined(frames, [r], FramesOf(bs[|Next(bs)|..], fails, cap));
    }
  }

  lemma {:induction false} FramesJoined(a: seq<Read>, b: seq<Read>, c: seq<Read>)
    ensures (a + b) + c == a + (b + c)
  {
  }

  /** Call after call until the end or an error: the frames of the bytes, whatever the fills were. */
  method ReadAll(reader: BufferedReader, cap: nat) returns (frames: seq<Read>)
    requires reader.Valid()
    modifies reader
    ensures frames == FramesOf(old(reader.Left()), reader.fails, cap)
  {
    frames := [];
    ghost var all := FramesOf(reader.Left(), reader.fails, cap);
    while true
      invariant reader.Valid()
      invariant frames + FramesOf(reader.Left(), reader.fails, cap) == all
      decreases |reader.Left()|
    {
      OneMoreFrame(frames, reader.Left(), reader.fails, cap, all);
      var r := ReadBoundedLine(reader, cap);
      frames := frames + [r];
      if !r.Frame? {
        return;
      }
    }
  }
}
