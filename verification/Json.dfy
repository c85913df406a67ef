/** JSON text as the daemon writes it: escaped strings, error results, and the envelope of a stored result. */
module Json {
  import opened Wrappers
  import opened Strings

  /** One character of a JSON string. */
  function EscapedChar(c: char): string {
    if c == '"' then "\\\""
    else if c == '\\' then "\\\\"
    else if c == '\U{08}' then "\\b"
    else if c == '\t' then "\\t"
    else if c == '\n' then "\\n"
    else if c == '\U{0C}' then "\\f"
    else if c == '\r' then "\\r"
    else if c < ' ' then "\\u00" + [HexDigit(c as int / 16), HexDigit(c as int % 16)]
    else [c]
  }

  function HexDigit(n: nat): char
    requires n < 16
  {
    "0123456789abcdef"[n]
  }

  function Escaped(s: string): string {
    if s == "" then "" else Escaped(s[..|s| - 1]) + EscapedChar(s[|s| - 1])
  }

  /** `{"ok": false, "error": reason}` */
  function ErrorResult(reason: string): string { "{\"error\":\"" + Escaped(reason) + "\",\"ok\":false}" }

  const RESULT_OPENS := "{\"tool_result\":{\"call_id\":\""
  const CONTENT_OPENS := "\",\"content\":\""
  const RESULT_CLOSES := "\"}}"

  /** The stored item of a tool result, as text. */
  function ResultEnvelope(call: string, content: string): string {
    RESULT_OPENS + Escaped(call) + CONTENT_OPENS + Escaped(content) + RESULT_CLOSES
  }

  /** The bytes of an envelope around its two strings. */
  const ENVELOPE_BYTES: nat := 43

  /** How many bytes an escaped text takes, counted without writing it. */
  function EscapedSize(s: string): nat {
    if s == "" then 0 else EscapedSize(s[..|s| - 1]) + EscapedCharSize(s[|s| - 1])
  }

  function EscapedCharSize(c: char): nat {
    if c == '"' || c == '\\' || '\U{08}' <= c <= '\n' || c == '\U{0C}' || c == '\r' then 2
    else if c < ' ' then 6
    else CharBytes(c)
  }

  function EnvelopeSize(call: string, content: string): nat {
    ENVELOPE_BYTES + EscapedSize(call) + EscapedSize(content)
  }

  lemma {:induction false} AsciiBytes(s: string)
    requires forall i | 0 <= i < |s| :: s[i] < '\U{80}'
    ensures Bytes(s) == |s|
    decreases |s|
  {
    if s != "" {
      AsciiBytes(s[..|s| - 1]);
    }
  }

  lemma {:induction false} EscapedCharBytes(c: char)
    ensures Bytes(EscapedChar(c)) == EscapedCharSize(c)
  {
    if c < ' ' || c == '"' || c == '\\' {
      AsciiBytes(EscapedChar(c));
    } else {
      assert [c][..0] == "";
    }
  }

  lemma {:induction false} EscapedBytes(s: string)
    ensures Bytes(Escaped(s)) == EscapedSize(s)
    decreases |s|
  {
    if s != "" {
      EscapedBytes(s[..|s| - 1]);
      EscapedCharBytes(s[|s| - 1]);
      BytesConcat(Escaped(s[..|s| - 1]), EscapedChar(s[|s| - 1]));
    }
  }

  /** Escaping makes a text longer, at most six bytes for a character. */
  lemma {:induction false} EscapedBounds(s: string)
    ensures Bytes(s) <= EscapedSize(s) <= 6 * |s|
    decreases |s|
  {
    if s != "" {
      EscapedBounds(s[..|s| - 1]);
    }
  }

  lemma {:induction false} FiveParts(head: string, a: string, mid: string, b: string, tail: string)
    ensures Bytes(head + a + mid + b + tail) == Bytes(head) + Bytes(a) + Bytes(mid) + Bytes(b) + Bytes(tail)
  {
    BytesConcat(head, a);
    BytesConcat(head + a, mid);
    BytesConcat(head + a + mid, b);
    BytesConcat(head + a + mid + b, tail);
  }

  lemma {:induction false} FixedParts()
    ensures Bytes(RESULT_OPENS) + Bytes(CONTENT_OPENS) + Bytes(RESULT_CLOSES) == ENVELOPE_BYTES
  {
    AsciiBytes(RESULT_OPENS);
    AsciiBytes(CONTENT_OPENS);
    AsciiBytes(RESULT_CLOSES);
  }

  /** The size is that of the text. */
  lemma {:induction false} EnvelopeBytes(call: string, content: string)
    ensures Bytes(ResultEnvelope(call, content)) == EnvelopeSize(call, content)
  {
    EscapedBytes(call);
    EscapedBytes(content);
    FixedParts();
    FiveParts(RESULT_OPENS, Escaped(call), CONTENT_OPENS, Escaped(content), RESULT_CLOSES);
  }

  /** An envelope is longer than what it wraps, and not much longer than six times that. */
  lemma {:induction false} EnvelopeBounds(call: string, content: string)
    ensures ENVELOPE_BYTES + Bytes(call) + Bytes(content) <= EnvelopeSize(call, content)
    ensures EnvelopeSize(call, content) <= ENVELOPE_BYTES + 6 * (|call| + |content|)
  {
    EscapedBounds(call);
    EscapedBounds(content);
  }

  // ---------------------------------------------------------------------------
  // Reading back.

  function HexValue(c: char): Option<nat> {
    if '0' <= c <= '9' then Some(c as int - '0' as int)
    else if 'a' <= c <= 'f' then Some(c as int - 'a' as int + 10)
    else if 'A' <= c <= 'F' then Some(c as int - 'A' as int + 10)
    else None
  }

  /** The character that four hexadecimal digits stand for; halves of a surrogate pair are not read. */
  function CharOfHex(s: string): Option<char>
    requires |s| == 4
  {
    match (HexValue(s[0]), HexValue(s[1]), HexValue(s[2]), HexValue(s[3]))
    case (Some(a), Some(b), Some(c), Some(d)) =>
      var n := 4096 * a + 256 * b + 16 * c + d;
      if n < 0xD800 then Some(n as char) else None
    case _ => None
  }

  /** The character at the front of the inside of a JSON string, and how many characters it takes. */
  function CharAtFront(s: string): Option<(char, nat)>
    requires s != ""
  {
    if s[0] != '\\' then if s[0] == '"' || s[0] < ' ' then None else Some((s[0], 1))
    else if |s| < 2 then None
    else match s[1]
      case '"' => Some(('"', 2))
      case '\\' => Some(('\\', 2))
      case '/' => Some(('/', 2))
      case 'b' => Some(('\U{08}', 2))
      case 't' => Some(('\t', 2))
      case 'n' => Some(('\n', 2))
      case 'f' => Some(('\U{0C}', 2))
      case 'r' => Some(('\r', 2))
      case 'u' =>
        if |s| < 6 then None
        else (match CharOfHex(s[2..6]) case Some(c) => Some((c, 6)) case None => None)
      case _ => None
  }

  /** The JSON string whose opening quote has been read, and what follows its closing quote. */
  function ReadString(s: string): Option<(string, string)>
    decreases |s|
  {
    if s == "" then None
    else if s[0] == '"' then Some(("", s[1..]))
    else match CharAtFront(s)
      case Some((c, n)) =>
        if n == 0 || |s| < n then None
        else (match ReadString(s[n..]) case Some((text, rest)) => Some(([c] + text, rest)) case None => None)
      case None => None
  }

  function ReadEnvelope(s: string): Option<(string, string)> {
    if !(RESULT_OPENS <= s) then None
    else match ReadString(s[|RESULT_OPENS|..])
      case Some((call, rest)) =>
        if !(CONTENT_OPENS[1..] <= rest) then None
        else (match ReadString(rest[|CONTENT_OPENS| - 1..])
              case Some((content, end)) => if end == RESULT_CLOSES[1..] then Some((call, content)) else None
              case None => None)
      case None => None
  }

  lemma {:induction false} HexDigitsRead(n: nat)
    requires n < 16
    ensures HexValue(HexDigit(n)) == Some(n)
  {
    assert n in {0, 1, 2, 3, 4, 5, 6, 7, 8, 9, 10, 11, 12, 13, 14, 15};
  }

  lemma {:induction false} EscapedCharReads(c: char, rest: string)
    ensures var s := EscapedChar(c) + rest;
            && s != "" && s[0] != '"' && CharAtFront(s) == Some((c, |EscapedChar(c)|))
            && s[|EscapedChar(c)|..] == rest
  {
    var s := EscapedChar(c) + rest;
    if c < ' ' && |EscapedChar(c)| == 6 {
      HexDigitsRead(c as int / 16);
      HexDigitsRead(c as int % 16);
      assert s[2..6] == ['0', '0', HexDigit(c as int / 16), HexDigit(c as int % 16)];
    }
  }

  lemma {:induction false} EscapedCharIsRead(c: char, text: string, tail: string, rest: string)
    requires ReadString(tail) == Some((text, rest))
    ensures ReadString(EscapedChar(c) + tail) == Some(([c] + text, rest))
  {
    EscapedCharReads(c, tail);
  }

  lemma {:induction false} EscapedFront(front: string, c: char, tail: string)
    ensures Escaped(front + [c]) + tail == Escaped(front) + (EscapedChar(c) + tail)
  {
    assert (front + [c])[..|front|] == front;
  }

  /** An escaped text before a closing quote reads as the text, whatever follows. */
  lemma {:induction false} EscapedReads(s: string, text: string, tail: string, rest: string)
    requires ReadString(tail) == Some((text, rest))
    ensures ReadString(Escaped(s) + tail) == Some((s + text, rest))
    decreases |s|, 0
  {
    if s == "" {
      assert Escaped("") + tail == tail && s + text == text;
    } else {
      var front, c := s[..|s| - 1], s[|s| - 1];
      assert s == front + [c] && s + text == front + ([c] + text);
      EscapedFront(front, c, tail);
      ReadsOn(front, c, text, tail, rest);
    }
  }

  lemma {:induction false} ReadsOn(front: string, c: char, text: string, tail: string, rest: string)
    requires ReadString(tail) == Some((text, rest))
    ensures ReadString(Escaped(front) + (EscapedChar(c) + tail)) == Some((front + ([c] + text), rest))
    decreases |front|, 1
  {
    EscapedCharIsRead(c, text, tail, rest);
    EscapedReads(front, [c] + text, EscapedChar(c) + tail, rest);
  }

  lemma {:induction false} QuotedReads(s: string, rest: string)
    ensures ReadString(Escaped(s) + ("\"" + rest)) == Some((s, rest))
  {
    var tail := "\"" + rest;
    assert tail[1..] == rest;
    EscapedReads(s, "", tail, rest);
    assert s + "" == s;
  }

  lemma {:induction false} PrefixDropped(a: string, b: string)
    ensures a <= a + b && (a + b)[|a|..] == b
  {
  }

  /** What is stored can be read back: an envelope tells its call and its content. */
  lemma {:induction false} EnvelopesReadBack(call: string, content: string)
    ensures ReadEnvelope(ResultEnvelope(call, content)) == Some((call, content))
  {
    var between, end := CONTENT_OPENS[1..], RESULT_CLOSES[1..];
    var last := Escaped(content) + ("\"" + end);
    var first := Escaped(call) + ("\"" + (between + last));
    QuotedReads(content, end);
    QuotedReads(call, between + last);
    PrefixDropped(RESULT_OPENS, first);
    PrefixDropped(between, last);
    EnvelopeParts(call, content, between, end);
  }

  lemma {:induction false} EnvelopeParts(call: string, content: string, between: string, end: string)
    requires CONTENT_OPENS == "\"" + between && RESULT_CLOSES == "\"" + end
    ensures ResultEnvelope(call, content)
         == RESULT_OPENS + (Escaped(call) + ("\"" + (between + (Escaped(content) + ("\"" + end)))))
  {
    Regroup(RESULT_OPENS, Escaped(call), "\"", between, Escaped(content), "\"" + end);
  }

  lemma {:induction false} Regroup(a: string, b: string, c: string, d: string, e: string, f: string)
    ensures a + b + (c + d) + e + f == a + (b + (c + (d + (e + f))))
  {
  }
}
