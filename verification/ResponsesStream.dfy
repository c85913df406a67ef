/**
 The event stream of one OpenAI Responses turn. Its lines are framed like those of a chat stream, but
 its last line may lack the newline, and is then held to a stricter rule. What an event does to the
 parse state is a parameter, and so are the decoders of UTF-8 and JSON.
 */
module ResponsesStream {
  import opened Wrappers
  import opened Strings
  import opened SseFraming

  /** What a line of the stream is. */
  datatype Line<+E> = NotUtf8 | NotData | DoneMarker | BadJson | Event(event: E)

  datatype Codec<!E> = Codec(utf8: seq<byte> -> Option<string>, json: string -> Option<E>)

  /** The new parse state, and why the event is refused, if it is. */
  type Parser<!S, !E> = (S, E) -> (S, Option<string>)

  function Appended(text: Option<string>, a: byte): Option<string>
    requires a < 128
  {
    match text
    case None => None
    case Some(t) => Some(t + [a as char])
  }

  /** What is used of UTF-8: an ASCII byte is a character, whatever comes before it. */
  ghost predicate AsciiExtends(utf8: seq<byte> -> Option<string>) {
    && utf8([]) == Some("")
    && forall bs: seq<byte>, a: byte | a < 128 :: utf8(bs + [a]) == Appended(utf8(bs), a)
  }

  function Decode<E>(c: Codec<E>, bs: seq<byte>): Line<E> {
    match c.utf8(bs)
    case None => NotUtf8
    case Some(text) =>
      var line := Trim(text);
      if !("data:" <= line) then NotData
      else
        var data := Trim(line[5..]);
        if data == "[DONE]" then DoneMarker
        else match c.json(data)
          case None => BadJson
          case Some(event) => Event(event)
  }

  /** A data line carries what stands behind its field name, without the white space around it. */
  lemma {:induction false} DataLinesAreDecoded<E>(c: Codec<E>, bs: seq<byte>, pre: string, mid: string, data: string,
                                                  post: string)
    requires Blank(pre) && Blank(mid) && Blank(post) && Trimmed(data)
    requires c.utf8(bs) == Some(pre + "data:" + mid + data + post)
    ensures Decode(c, bs) == if data == "[DONE]" then DoneMarker
                             else if c.json(data).Some? then Event(c.json(data).value) else BadJson
  {
    var text, field := pre + "data:" + mid + data + post, "data:";
    if data == "" {
      assert text == pre + field + (mid + post);
      TrimIs(pre, field, mid + post);
      assert field[5..] == "";
    } else {
      var line := field + mid + data;
      assert text == pre + line + post;
      assert line[0] == 'd' && line[|line| - 1] == data[|data| - 1];
      TrimIs(pre, line, post);
      assert line[5..] == mid + data + "";
      TrimIs(mid, data, "");
    }
  }

  /** A line is no data exactly if it does not begin with the field name, white space apart. */
  lemma {:induction false} NotDataIff<E>(c: Codec<E>, bs: seq<byte>, text: string)
    requires c.utf8(bs) == Some(text)
    ensures Decode(c, bs).NotData?
            <==> !(exists pre: string, rest: string :: Blank(pre) && text == pre + "data:" + rest)
  {
    var field, line := "data:", Trim(text);
    var first, last := TrimDrops(text);
    if pre: string, rest: string :| Blank(pre) && text == pre + field + rest {
      FieldStays(pre, rest);
    }
    if field <= line {
      assert text == first + field + (line[5..] + last);
    }
  }

  lemma {:induction false} FieldStays(pre: string, rest: string)
    requires Blank(pre)
    ensures "data:" <= Trim(pre + "data:" + rest)
  {
    var field := "data:";
    var end := TrimEndDrops(rest);
    var line := field + TrimEnd(rest);
    assert pre + field + rest == pre + line + end;
    assert line[0] == 'd' && (TrimEnd(rest) == "" || line[|line| - 1] == TrimEnd(rest)[|TrimEnd(rest)| - 1]);
    TrimIs(pre, line, end);
  }

  function Parse<S, E>(s: S, event: E, parse: Parser<S, E>): Verdict<S> {
    var (t, refusal) := parse(s, event);
    if refusal.Some? then Reject(t, Rejected(refusal.value)) else Accept(t)
  }

  /** A line that ends in a newline: what is not data is skipped. */
  function OnLine<S, E>(s: S, line: Line<E>, parse: Parser<S, E>): Verdict<S> {
    match line
    case NotUtf8 => Reject(s, Rejected("OpenAI SSE is not UTF-8"))
    case NotData => Accept(s)
    case DoneMarker => Accept(s)
    case BadJson => Reject(s, Rejected("frame is not JSON"))
    case Event(event) => Parse(s, event, parse)
  }

  /** The last line, if it lacks its newline: what is not data is an error. */
  function OnTail<S, E>(s: S, line: Line<E>, parse: Parser<S, E>): Verdict<S> {
    if line.NotData? then Reject(s, Rejected("OpenAI Responses stream ended with an invalid SSE frame"))
    else OnLine(s, line, parse)
  }

  function LineHandler<S, E>(c: Codec<E>, parse: Parser<S, E>): (S, seq<byte>) -> Verdict<S> {
    (s: S, bs: seq<byte>) => OnLine(s, Decode(c, bs), parse)
  }

  /** `u8::is_ascii_whitespace` of every byte */
  predicate AllAsciiSpace(bs: seq<byte>) {
    forall i | 0 <= i < |bs| :: bs[i] in {9, 10, 12, 13, 32}
  }

  /** The end of the stream: white space is dropped, anything else is the last line. */
  function Finish<S, E>(r: Reader<S>, c: Codec<E>, parse: Parser<S, E>): Verdict<S> {
    match r
    case Broken(s, why) => Reject(s, why)
    case Open(rest, s) => if AllAsciiSpace(rest) then Accept(s) else OnTail(s, Decode(c, rest), parse)
  }

  /** The whole stream, chunk by chunk. */
  function ReadStream<S, E>(s: S, chunks: seq<seq<byte>>, ending: Ending, c: Codec<E>, parse: Parser<S,
                            E>): Verdict<S> {
    var r := FeedAll(s, chunks, LineHandler(c, parse));
    if r.Open? && ending.Dropped? then Reject(r.state, Transport(ending.timeout)) else Finish(r, c, parse)
  }

  /** The parse state, and success or failure, depend on the bytes alone, however they were split. */
  lemma {:induction false} SplitDoesNotMatter<S, E>(s: S, a: seq<seq<byte>>, b: seq<seq<byte>>, ending: Ending,
                                                    c: Codec<E>, parse: Parser<S, E>)
    requires Flatten(a) == Flatten(b)
    ensures ReadStream(s, a, ending, c, parse) == ReadStream(s, b, ending, c, parse)
  {
    ChunksDoNotMatter(s, a, LineHandler(c, parse));
    ChunksDoNotMatter(s, b, LineHandler(c, parse));
  }

  // ---------------------------------------------------------------------------
  // A missing last newline.

  lemma {:induction false} DecodeForgetsNewline<E>(c: Codec<E>, bs: seq<byte>)
    requires AsciiExtends(c.utf8)
    ensures Decode(c, bs + [NEWLINE]) == Decode(c, bs)
  {
    assert c.utf8(bs + [NEWLINE]) == Appended(c.utf8(bs), NEWLINE);
    assert NEWLINE as char == '\n';
    if c.utf8(bs).Some? {
      TrimForgets(c.utf8(bs).value, '\n');
    }
  }

  lemma {:induction false} SpaceDecodes(utf8: seq<byte> -> Option<string>, bs: seq<byte>)
    requires AsciiExtends(utf8) && AllAsciiSpace(bs)
    ensures utf8(bs).Some? && Blank(utf8(bs).value)
    decreases |bs|
  {
    if bs != [] {
      var front, last := bs[..|bs| - 1], bs[|bs| - 1];
      assert bs == front + [last];
      SpaceDecodes(utf8, front);
      assert utf8(front + [last]) == Appended(utf8(front), last);
      assert IsWhite(last as char);
    }
  }

  /** White space is no data, with and without a newline behind it. */
  lemma {:induction false} SpaceIsNotData<E>(c: Codec<E>, bs: seq<byte>)
    requires AsciiExtends(c.utf8) && AllAsciiSpace(bs)
    ensures Decode(c, bs) == NotData
  {
    SpaceDecodes(c.utf8, bs);
    TrimOfBlank(c.utf8(bs).value);
  }

  /** A newline completes the kept line, which is then framed and handled like any other. */
  lemma {:induction false} NewlineCompletes<S, E>(rest: seq<byte>, s: S, c: Codec<E>, parse: Parser<S, E>)
    requires NEWLINE !in rest && AsciiExtends(c.utf8)
    ensures Finish(Frames(rest + [NEWLINE], s, LineHandler(c, parse)), c, parse)
            == if |rest| < MAX_SSE_FRAME_BYTES then OnLine(s, Decode(c, rest), parse) else Reject(s, FrameTooLarge)
  {
    var line := rest + [NEWLINE];
    OneLine(rest);
    DecodeForgetsNewline(c, rest);
    HandleOne(line, s, LineHandler(c, parse));
    assert AllAsciiSpace([]);
  }

  lemma {:induction false} OneLine(rest: seq<byte>)
    requires NEWLINE !in rest
    ensures Lines(rest + [NEWLINE]) == [rest + [NEWLINE]] && Rest(rest + [NEWLINE]) == []
  {
    var line := rest + [NEWLINE];
    assert line[|rest|] == NEWLINE;
    assert NewlineAt(line) == |rest|;
    assert line[..|rest| + 1] == line && line[|rest| + 1..] == [];
  }

  lemma {:induction false} HandleOne<S>(line: seq<byte>, s: S, f: (S, seq<byte>) -> Verdict<S>)
    ensures HandleLines([line], s, f) == if |line| > MAX_SSE_FRAME_BYTES then Reject(s, FrameTooLarge) else f(s, line)
  {
    var none: seq<seq<byte>> := [];
    assert [line][1..] == none;
    if f(s, line).Accept? {
      assert HandleLines(none, f(s, line).state, f) == f(s, line);
    }
  }

  /** The stream ends as if the newline that it lacks were there. */
  predicate EndsAlike<S(==), E>(bs: seq<byte>, s: S, c: Codec<E>, parse: Parser<S, E>) {
    var f := LineHandler(c, parse);
    Finish(Frames(bs, s, f), c, parse) == Finish(Frames(bs + [NEWLINE], s, f), c, parse)
  }

  /**
   A stream that lost its last newline ends like the complete stream exactly if it broke before, or the
   kept line is shorter than the cap and is white space, or data, or refused as a line anyway.
   */
  lemma {:induction false} MissingNewlineIsForgivenIff<S, E>(bs: seq<byte>, s: S, c: Codec<E>, parse: Parser<S, E>)
    requires AsciiExtends(c.utf8)
    ensures var r := Frames(bs, s, LineHandler(c, parse));
            EndsAlike(bs, s, c, parse) <==>
              r.Broken? || (|r.rest| < MAX_SSE_FRAME_BYTES && (AllAsciiSpace(r.rest) || !Decode(c, r.rest).NotData?))
  {
    var f := LineHandler(c, parse);
    var r := Frames(bs, s, f);
    FramesContinue(bs, [NEWLINE], s, f);
    if r.Open? {
      RestIsUnfinished(bs);
      NewlineCompletes(r.rest, r.state, c, parse);
      if AllAsciiSpace(r.rest) {
        SpaceIsNotData(c, r.rest);
      }
    }
  }

  /** The simplest stream that is not forgiven: an unfinished comment is an error, a finished one is skipped. */
  lemma {:induction false} UnfinishedCommentFails<S, E>(s: S, c: Codec<E>, parse: Parser<S, E>)
    requires AsciiExtends(c.utf8)
    ensures var f := LineHandler(c, parse);
            && Finish(Frames([58], s, f), c, parse).Reject?
            && Finish(Frames([58, NEWLINE], s, f), c, parse) == Accept(s)
  {
    var comment: seq<byte> := [58];
    var none: seq<byte> := [];
    assert none + [58] == comment && comment + [NEWLINE] == [58, NEWLINE];
    assert c.utf8(none + [58]) == Appended(Some(""), 58);
    var colon: byte := 58;
    assert colon as char == ':' && "" + [':'] == ":";
    assert c.utf8(comment) == Some(":");
    CommentIsNotData(c);
    assert Lines(comment) == [] && Rest(comment) == comment;
    NewlineCompletes(comment, s, c, parse);
  }

  lemma {:induction false} CommentIsNotData<E>(c: Codec<E>)
    requires c.utf8([58]) == Some(":")
    ensures Decode(c, [58]) == NotData
  {
    assert Trim(":") == ":";
  }

  /** A decoder as assumed exists: for one, the decoder of plain ASCII. */
  function Ascii(bs: seq<byte>): Option<string> {
    if bs == [] then Some("")
    else if bs[|bs| - 1] < 128 then Appended(Ascii(bs[..|bs| - 1]), bs[|bs| - 1])
    else None
  }

  lemma {:induction false} AsciiIsSuch()
    ensures AsciiExtends(Ascii)
  {
    forall bs: seq<byte>, a: byte | a < 128 ensures Ascii(bs + [a]) == Appended(Ascii(bs), a) {
      assert (bs + [a])[..|bs|] == bs;
    }
  }

  // ---------------------------------------------------------------------------

  /** The SSE loop of `complete_response_once`. */
  method ReadResponse<S, E>(s: S, chunks: seq<seq<byte>>, ending: Ending, c: Codec<E>, parse: Parser<S, E>)
    returns (v: Verdict<S>)
    ensures v == ReadStream(s, chunks, ending, c, parse)
  {
    var r := ReadChunks(chunks, s, LineHandler(c, parse));
    if r.Broken? {
      return Reject(r.state, r.why);
    }
    if ending.Dropped? {
      return Reject(r.state, Transport(ending.timeout));
    }
    if AllAsciiSpace(r.rest) {
      return Accept(r.state);
    }
    var line := Decode(c, r.rest);
    v := if line.NotData? then Reject(r.state, Rejected("OpenAI Responses stream ended with an invalid SSE frame"))
         else OnLine(r.state, line, parse);
  }
}
