/** The AI relay endpoint of app/api/ai/process/route.ts: it validates the
    request, builds the chat payload for the local model server and forwards the
    server's newline-delimited JSON stream to the client as plain text, one
    write per extracted text piece. */
module Relay {
  import opened JsText

  // ---------------------------------------------------------------------------
  // Request and upstream payload
  // ---------------------------------------------------------------------------

  datatype Attachment = Attachment(filename: Option<string>, data: Option<string>)

  /** The `attachments` field of the request body. */
  datatype AttachmentsField = NoAttachments | NotAnArray | Attachments(items: seq<Attachment>)

  datatype Request = Request(prompt: Option<string>, emailContent: Option<string>, attachments: AttachmentsField)

  /** The request body as read by `req.json()`. */
  datatype RequestBody = Unreadable(message: string) | Body(request: Request)

  datatype Image = Image(data: Option<string>, filename: Option<string>)

  datatype ChatTurn = ChatTurn(role: string, content: string)

  datatype Payload = Payload(model: string, messages: seq<ChatTurn>, stream: bool, images: Option<seq<Image>>)

  const ModelName: string := "llama3.2-vision:latest"
  const MissingInput: string := "Missing prompt or emailContent"

  /** The request is served only when the prompt or the email content is a
      non-empty string. */
  predicate Admissible(req: Request) {
    Truthy(req.prompt) || Truthy(req.emailContent)
  }

  /** The text of the single user turn. */
  function UserContent(req: Request): string {
    Trim(Or(req.prompt, "") + "\n\n" + Or(req.emailContent, ""))
  }

  /** The `images` field: present only for a non-empty attachment array, and
      then one image per attachment, in order. */
  function Images(field: AttachmentsField): (r: Option<seq<Image>>)
    ensures r.Some? <==> field.Attachments? && |field.items| > 0
    ensures r.Some? ==> |r.value| == |field.items|
    ensures r.Some? ==> forall i :: 0 <= i < |r.value| ==>
              r.value[i].data == field.items[i].data && r.value[i].filename == field.items[i].filename
  {
    if field.Attachments? && |field.items| > 0 then
      Some(seq(|field.items|, i requires 0 <= i < |field.items| =>
        Image(field.items[i].data, field.items[i].filename)))
    else None
  }

  /** The payload posted to the model server: the fixed model, one user turn,
      streaming on, and the images when there are any. */
  function BuildPayload(req: Request): (p: Payload)
    ensures p.model == ModelName && p.stream
    ensures p.messages == [ChatTurn("user", UserContent(req))]
    ensures p.images == Images(req.attachments)
  {
    Payload(ModelName, [ChatTurn("user", UserContent(req))], true, Images(req.attachments))
  }

  /** With only a prompt, the user turn is the trimmed prompt. */
  lemma PromptOnly(req: Request)
    requires !Truthy(req.emailContent)
    ensures UserContent(req) == Trim(Or(req.prompt, ""))
  {
    var p := Or(req.prompt, "");
    assert p + "\n\n" + "" == (p + ['\n']) + ['\n'];
    TrimDropLastSpace(p + ['\n'], '\n');
    TrimDropLastSpace(p, '\n');
  }

  /** With only email content, the user turn is the trimmed email content. */
  lemma EmailContentOnly(req: Request)
    requires !Truthy(req.prompt)
    ensures UserContent(req) == Trim(Or(req.emailContent, ""))
  {
    var e := Or(req.emailContent, "");
    assert "" + "\n\n" + e == "\n\n" + e;
    assert IsBlank("\n\n") by {
      assert "\n\n"[1..] == "\n";
      assert "\n"[1..] == "";
    }
    TrimDropLeadingSpace("\n\n", e);
  }

  // ---------------------------------------------------------------------------
  // Parsing one line of the upstream stream
  // ---------------------------------------------------------------------------

  /** A JSON value reached by an optional-chaining path: `Missing` is
      `undefined`, `Other` is any non-string value with its truthiness and its
      `String(...)` rendering. */
  datatype JsonValue = Missing | Null | Str(s: string) | Other(truthy: bool, rendered: string)

  /** The outcome of `JSON.parse` on a trimmed line, reduced to the three paths
      the relay reads: `message.content`, `text` and `data`. */
  datatype ParseResult = NotJson | Json(messageContent: JsonValue, text: JsonValue, data: JsonValue)

  predicate Nullish(v: JsonValue) {
    v.Missing? || v.Null?
  }

  predicate JsTruthy(v: JsonValue) {
    match v
    case Missing => false
    case Null => false
    case Str(s) => s != ""
    case Other(t, _) => t
  }

  function Render(v: JsonValue): string {
    match v
    case Str(s) => s
    case Other(_, r) => r
    case _ => "null"
  }

  /** `a ?? b ?? c ?? null`: the first value that is neither `null` nor
      `undefined`. */
  function Coalesce(a: JsonValue, b: JsonValue, c: JsonValue): (r: JsonValue)
    ensures !Nullish(a) ==> r == a
    ensures Nullish(a) && !Nullish(b) ==> r == b
    ensures Nullish(a) && Nullish(b) && !Nullish(c) ==> r == c
    ensures Nullish(a) && Nullish(b) && Nullish(c) ==> r == Null
  {
    if !Nullish(a) then a else if !Nullish(b) then b else if !Nullish(c) then c else Null
  }

  /** The text a parsed line contributes, if any: the coalesced value when it
      is truthy. */
  function Extract(p: ParseResult): (r: Option<string>)
    requires p.Json?
  {
    var v := Coalesce(p.messageContent, p.text, p.data);
    if JsTruthy(v) then Some(Render(v)) else None
  }

  /** The writes for a trimmed, non-blank piece of text: the extracted text
      for JSON, `raw` otherwise. */
  function Emit(parsed: ParseResult, raw: string): (r: seq<string>)
    ensures |r| <= 1
  {
    match parsed
    case NotJson => [raw]
    case Json(_, _, _) => var e := Extract(parsed); if e.Some? then [e.value] else []
  }

  /** The writes for one complete line: nothing for a blank line, the
      extracted text for JSON, the trimmed line and a line feed otherwise. */
  function LineWrites(line: string, parse: string -> ParseResult): (r: seq<string>)
    ensures |r| <= 1
  {
    var t := Trim(line);
    if t == "" then [] else Emit(parse(t), t + "\n")
  }

  /** The writes for the remainder at the end of the stream: the same rule as
      a line, except that a raw remainder is written without a line feed. */
  function FlushWrites(buffer: string, parse: string -> ParseResult): (r: seq<string>)
    ensures |r| <= 1
  {
    var t := Trim(buffer);
    if t == "" then [] else Emit(parse(t), t)
  }

  /** Which lines produce output, and what they write. */
  lemma LineOutput(line: string, parse: string -> ParseResult)
    ensures IsBlank(line) ==> LineWrites(line, parse) == []
    ensures !IsBlank(line) && parse(Trim(line)).NotJson? ==> LineWrites(line, parse) == [Trim(line) + "\n"]
    ensures var p := parse(Trim(line));
            !IsBlank(line) && p.Json? ==>
              var v := Coalesce(p.messageContent, p.text, p.data);
              (JsTruthy(v) ==> LineWrites(line, parse) == [Render(v)])
              && (!JsTruthy(v) ==> LineWrites(line, parse) == [])
  {
  }

  /** The same for the remainder flushed at the end, whose raw form has no
      line feed. */
  lemma FlushOutput(buffer: string, parse: string -> ParseResult)
    ensures IsBlank(buffer) ==> FlushWrites(buffer, parse) == []
    ensures !IsBlank(buffer) && parse(Trim(buffer)).NotJson? ==> FlushWrites(buffer, parse) == [Trim(buffer)]
    ensures var p := parse(Trim(buffer));
            !IsBlank(buffer) && p.Json? ==>
              var v := Coalesce(p.messageContent, p.text, p.data);
              (JsTruthy(v) ==> FlushWrites(buffer, parse) == [Render(v)])
              && (!JsTruthy(v) ==> FlushWrites(buffer, parse) == [])
  {
  }

  /** A present but empty `message.content` suppresses the line, whatever
      `text` and `data` hold. */
  lemma EmptyContentSuppresses(line: string, parse: string -> ParseResult)
    requires parse(Trim(line)).Json? && parse(Trim(line)).messageContent == Str("")
    ensures LineWrites(line, parse) == []
    ensures FlushWrites(line, parse) == []
  {
  }

  // ---------------------------------------------------------------------------
  // Line framing
  // ---------------------------------------------------------------------------

  /** A line ended by `\r\n` loses the `\r` as well. */
  function StripCR(line: string): string {
    if line != [] && line[|line| - 1] == '\r' then line[..|line| - 1] else line
  }

  function StripCRs(lines: seq<string>): (r: seq<string>)
    ensures |r| == |lines|
    ensures forall i :: 0 <= i < |lines| ==> r[i] == StripCR(lines[i])
  {
    seq(|lines|, i requires 0 <= i < |lines| => StripCR(lines[i]))
  }

  /** The lines of `s` that are terminated by a line break, in order. */
  function CompleteLines(s: string): seq<string> {
    var pieces := SplitOn(s, '\n');
    StripCRs(pieces[..|pieces| - 1])
  }

  /** The text after the last line break of `s`. */
  function Remainder(s: string): (r: string)
    ensures '\n' !in r
  {
    var pieces := SplitOn(s, '\n');
    SplitOnLastFree(s, '\n');
    pieces[|pieces| - 1]
  }

  /** `s.split(/\r?\n/)`: the complete lines followed by the remainder. */
  function SplitLineBreaks(s: string): (r: seq<string>)
    ensures |r| >= 1
    ensures r[..|r| - 1] == CompleteLines(s) && r[|r| - 1] == Remainder(s)
  {
    var r := CompleteLines(s) + [Remainder(s)];
    assert r[..|r| - 1] == CompleteLines(s);
    r
  }

  /** Without carriage returns, the lines and the remainder joined by line
      feeds give back the text: no character is lost or duplicated. */
  lemma LinesCoverText(s: string)
    requires '\r' !in s
    ensures Join(SplitLineBreaks(s), "\n") == s
  {
    var pieces := SplitOn(s, '\n');
    SplitOnAvoids(s, '\n', '\r');
    assert StripCRs(pieces[..|pieces| - 1]) == pieces[..|pieces| - 1];
    assert SplitLineBreaks(s) == pieces;
    JoinSplit(s, '\n');
  }

  lemma StripCRsConcat(a: seq<string>, b: seq<string>)
    ensures StripCRs(a + b) == StripCRs(a) + StripCRs(b)
  {
    assert forall i :: 0 <= i < |a + b| ==> StripCRs(a + b)[i] == (StripCRs(a) + StripCRs(b))[i];
  }

  /** Appending `v` to the text `d` re-frames only the remainder of `d`: the
      complete lines of `d + v` are those of `d` followed by those of
      `Remainder(d) + v`, and the remainders agree. This is why the relay may
      keep only the remainder between chunks, and why its output does not
      depend on where the chunk boundaries fall. */
  lemma ChunkBoundary(d: string, v: string)
    ensures CompleteLines(d + v) == CompleteLines(d) + CompleteLines(Remainder(d) + v)
    ensures Remainder(d + v) == Remainder(Remainder(d) + v)
  {
    var sd := SplitOn(d, '\n');
    var b := SplitOn(Remainder(d) + v, '\n');
    SplitOnAfterLast(d, v, '\n');
    var whole := SplitOn(d + v, '\n');
    assert whole == sd[..|sd| - 1] + b;
    AppendSplit(sd[..|sd| - 1], b, whole);
    StripCRsConcat(sd[..|sd| - 1], b[..|b| - 1]);
  }

  /** The last piece of `p + b` is that of `b`, and the pieces before it are
      `p` followed by those before it in `b`. */
  lemma AppendSplit(p: seq<string>, b: seq<string>, whole: seq<string>)
    requires |b| >= 1 && whole == p + b
    ensures whole[..|whole| - 1] == p + b[..|b| - 1]
    ensures whole[|whole| - 1] == b[|b| - 1]
  {
  }

  // ---------------------------------------------------------------------------
  // The stream
  // ---------------------------------------------------------------------------

  /** How reading the upstream body ends: normally, or with a failed read. */
  datatype Ending = Done | ReadFailure

  const StreamError: string := "\n[stream error]\n"

  /** The text of the chunks read; a read without a value contributes
      nothing. */
  function Decoded(chunks: seq<Option<string>>): string {
    if chunks == [] then ""
    else
      var last := chunks[|chunks| - 1];
      Decoded(chunks[..|chunks| - 1]) + (if last.Some? then last.value else "")
  }

  lemma DecodedSnoc(chunks: seq<Option<string>>, i: nat)
    requires i < |chunks|
    ensures Decoded(chunks[..i + 1]) == Decoded(chunks[..i]) + (if chunks[i].Some? then chunks[i].value else "")
  {
    assert chunks[..i + 1][..i] == chunks[..i];
  }

  /** Decoding a list of chunks is decoding its parts one after the other. */
  lemma {:induction false} DecodedConcat(a: seq<Option<string>>, b: seq<Option<string>>)
    ensures Decoded(a + b) == Decoded(a) + Decoded(b)
    decreases |b|
  {
    if b == [] {
      assert a + b == a;
    } else {
      var b' := b[..|b| - 1];
      assert (a + b)[..|a + b| - 1] == a + b';
      assert (a + b)[|a + b| - 1] == b[|b| - 1];
      DecodedConcat(a, b');
    }
  }

  /** `LineWrites` as a function value, for mapping over lines. */
  function LineHandler(parse: string -> ParseResult): string -> seq<string> {
    line => LineWrites(line, parse)
  }

  lemma LineHandlerApply(parse: string -> ParseResult, line: string)
    ensures LineHandler(parse)(line) == LineWrites(line, parse)
  {
  }

  /** The writes for a sequence of complete lines, in order. */
  function LinesWrites(lines: seq<string>, parse: string -> ParseResult): seq<string> {
    FlatMap(lines, LineHandler(parse))
  }

  /** Each line is written at most once. */
  lemma LinesWritesBound(lines: seq<string>, parse: string -> ParseResult)
    ensures |LinesWrites(lines, parse)| <= |lines|
  {
    FlatMapBound(lines, LineHandler(parse));
  }

  /** Everything the relay writes for the decoded text of a stream: the
      complete lines, then the flushed remainder if the stream ended normally,
      or the error marker, without a flush, if a read failed. */
  function StreamWrites(text: string, ending: Ending, parse: string -> ParseResult): seq<string> {
    LinesWrites(CompleteLines(text), parse)
      + (if ending == Done then FlushWrites(Remainder(text), parse) else [StreamError])
  }

  /** The relay writes at most one piece per line, plus one. */
  lemma StreamWritesBound(text: string, ending: Ending, parse: string -> ParseResult)
    ensures |StreamWrites(text, ending, parse)| <= |CompleteLines(text)| + 1
  {
    LinesWritesBound(CompleteLines(text), parse);
  }

  /** Terminating the remainder with a line break changes the output only for a
      raw (non-JSON) remainder, which then gains its line feed. */
  lemma FlushAsLine(s: string, parse: string -> ParseResult)
    ensures var t := Trim(Remainder(s));
            var raw := t != "" && parse(t).NotJson?;
            (!raw ==> StreamWrites(s + "\n", Done, parse) == StreamWrites(s, Done, parse))
            && (raw ==>
                  StreamWrites(s, Done, parse) == LinesWrites(CompleteLines(s), parse) + [t]
                  && StreamWrites(s + "\n", Done, parse) == LinesWrites(CompleteLines(s), parse) + [t + "\n"])
  {
    var r := Remainder(s);
    var lines := LinesWrites(CompleteLines(s), parse);
    TerminatedWrites(s, parse);
    LineVersusFlush(r, parse);
    assert StreamWrites(s, Done, parse) == lines + FlushWrites(r, parse);
  }

  /** The writes for the text with a line feed appended: its remainder is
      handled as one more complete line, and nothing is left to flush. */
  lemma TerminatedWrites(s: string, parse: string -> ParseResult)
    ensures StreamWrites(s + "\n", Done, parse)
            == LinesWrites(CompleteLines(s), parse) + LineWrites(StripCR(Remainder(s)), parse)
  {
    TerminatedRemainder(s);
    LinesWritesSnoc(CompleteLines(s), StripCR(Remainder(s)), parse);
    assert FlushWrites("", parse) == [] by {
      assert Trim("") == "";
    }
  }

  /** The remainder handled as a line and as the final flush: the same,
      except that a raw remainder gains a line feed as a line. */
  lemma LineVersusFlush(r: string, parse: string -> ParseResult)
    ensures var t := Trim(r);
            (!(t != "" && parse(t).NotJson?) ==> LineWrites(StripCR(r), parse) == FlushWrites(r, parse))
            && (t != "" && parse(t).NotJson? ==> LineWrites(StripCR(r), parse) == [t + "\n"] && FlushWrites(r, parse) == [t])
  {
    TrimStripCR(r);
  }

  /** A line feed after the text makes its remainder one more complete line
      and leaves an empty remainder. */
  lemma TerminatedRemainder(s: string)
    ensures CompleteLines(s + "\n") == CompleteLines(s) + [StripCR(Remainder(s))]
    ensures Remainder(s + "\n") == ""
  {
    var r := Remainder(s);
    ChunkBoundary(s, "\n");
    SplitBeforeLineFeed(r);
    var pieces := SplitOn(r + "\n", '\n');
    assert pieces[..|pieces| - 1] == [r];
  }

  lemma SplitBeforeLineFeed(r: string)
    requires '\n' !in r
    ensures SplitOn(r + "\n", '\n') == [r, ""]
  {
    SplitOnConcat(r, "\n", '\n');
    SplitOnNoSeparator(r, '\n');
    assert "\n"[1..] == "";
    assert SplitOn("\n", '\n') == ["", ""];
    assert [r][..0] == [];
    assert r + "" == r;
  }

  /** The carriage return of a `\r\n` ending does not survive the trim. */
  lemma TrimStripCR(r: string)
    ensures Trim(StripCR(r)) == Trim(r)
  {
    if r != [] && r[|r| - 1] == '\r' {
      assert r == r[..|r| - 1] + ['\r'];
      TrimDropLastSpace(r[..|r| - 1], '\r');
    }
  }

  lemma LinesWritesSnoc(lines: seq<string>, line: string, parse: string -> ParseResult)
    ensures LinesWrites(lines + [line], parse) == LinesWrites(lines, parse) + LineWrites(line, parse)
  {
    assert (lines + [line])[..|lines|] == lines;
    LineHandlerApply(parse, line);
  }

  /** The client side of the relay's `TransformStream`: the pieces written so
      far, and whether it has been closed. */
  class Writer {
    var written: seq<string>
    var closed: bool

    constructor ()
      ensures written == [] && !closed
    {
      written := [];
      closed := false;
    }

    method Write(piece: string)
      requires !closed
      modifies this
      ensures written == old(written) + [piece] && !closed
    {
      written := written + [piece];
    }

    method Close()
      modifies this
      ensures closed && written == old(written)
    {
      closed := true;
    }
  }

  /** The body of the line loop: skips a blank line, writes the extracted
      text of a JSON line, and forwards any other line raw with a line feed. */
  method ForwardLine(line: string, parse: string -> ParseResult, writer: Writer)
    requires !writer.closed
    modifies writer
    ensures !writer.closed
    ensures writer.written == old(writer.written) + LineWrites(line, parse)
  {
    var trimmed := Trim(line);
    if trimmed != "" {
      var parsed := parse(trimmed);
      if parsed.NotJson? {
        writer.Write(trimmed + "\n");
      } else {
        var content := Coalesce(parsed.messageContent, parsed.text, parsed.data);
        if JsTruthy(content) {
          writer.Write(Render(content));
        }
      }
    }
  }

  /** The final flush: the line rule again, but a raw remainder is written
      without a line feed. */
  method FlushRemainder(buffer: string, parse: string -> ParseResult, writer: Writer)
    requires !writer.closed
    modifies writer
    ensures !writer.closed
    ensures writer.written == old(writer.written) + FlushWrites(buffer, parse)
  {
    var maybe := Trim(buffer);
    if maybe != "" {
      var parsed := parse(maybe);
      if parsed.NotJson? {
        writer.Write(maybe);
      } else {
        var content := Coalesce(parsed.messageContent, parsed.text, parsed.data);
        if JsTruthy(content) {
          writer.Write(Render(content));
        }
      }
    }
  }

  /** One more line handled: the writes so far extend to the next prefix. */
  lemma LinesWritesStep(w0: seq<string>, lines: seq<string>, j: nat, parse: string -> ParseResult,
                        w1: seq<string>, w2: seq<string>)
    requires j < |lines|
    requires w1 == w0 + LinesWrites(lines[..j], parse) && w2 == w1 + LineWrites(lines[j], parse)
    ensures w2 == w0 + LinesWrites(lines[..j + 1], parse)
  {
    FlatMapSnoc(lines, j, LineHandler(parse));
    LineHandlerApply(parse, lines[j]);
    ConcatAssoc(w0, LinesWrites(lines[..j], parse), LineWrites(lines[j], parse));
  }

  /** The `for (const line of lines)` loop: handles each complete line in
      order. */
  method ForwardLines(lines: seq<string>, parse: string -> ParseResult, writer: Writer)
    requires !writer.closed
    modifies writer
    ensures !writer.closed
    ensures writer.written == old(writer.written) + LinesWrites(lines, parse)
  {
    ghost var w0 := writer.written;
    var j := 0;
    while j < |lines|
      invariant 0 <= j <= |lines|
      invariant !writer.closed
      invariant writer.written == w0 + LinesWrites(lines[..j], parse)
    {
      ghost var w1 := writer.written;
      ForwardLine(lines[j], parse, writer);
      LinesWritesStep(w0, lines, j, parse, w1, writer.written);
      j := j + 1;
    }
    assert lines[..j] == lines;
  }

  /** One chunk read: appended to the kept remainder, whose complete lines
      are forwarded; the new remainder is returned. */
  method ForwardChunk(buffer: string, value: string, parse: string -> ParseResult, writer: Writer)
    returns (rest: string)
    requires !writer.closed
    modifies writer
    ensures !writer.closed
    ensures rest == Remainder(buffer + value)
    ensures writer.written == old(writer.written) + LinesWrites(CompleteLines(buffer + value), parse)
  {
    var lines := SplitLineBreaks(buffer + value);
    rest := lines[|lines| - 1];
    ForwardLines(lines[..|lines| - 1], parse, writer);
  }

  /** The read loop of the decoding task: reads the chunks, keeps the partial
      last line in the buffer it returns, and forwards each complete line. */
  method ReadChunks(chunks: seq<Option<string>>, parse: string -> ParseResult, writer: Writer)
    returns (buffer: string)
    requires !writer.closed
    modifies writer
    ensures !writer.closed
    ensures buffer == Remainder(Decoded(chunks))
    ensures writer.written == old(writer.written) + LinesWrites(CompleteLines(Decoded(chunks)), parse)
  {
    buffer := "";
    var i := 0;
    ghost var dec := "";
    assert chunks[..0] == [];
    while i < |chunks|
      invariant 0 <= i <= |chunks|
      invariant !writer.closed
      invariant dec == Decoded(chunks[..i])
      invariant buffer == Remainder(dec)
      invariant writer.written == old(writer.written) + LinesWrites(CompleteLines(dec), parse)
    {
      DecodedSnoc(chunks, i);
      buffer := ReadStep(old(writer.written), dec, buffer, chunks[i], parse, writer);
      dec := dec + (if chunks[i].Some? then chunks[i].value else "");
      i := i + 1;
    }
    assert chunks[..i] == chunks;
  }

  /** One read of the loop: a chunk is forwarded, an empty read changes
      nothing. `dec` is the text decoded so far and `w0` what the writer held
      before the first read. */
  method ReadStep(ghost w0: seq<string>, ghost dec: string, buffer: string, value: Option<string>,
                  parse: string -> ParseResult, writer: Writer)
    returns (rest: string)
    requires !writer.closed
    requires buffer == Remainder(dec)
    requires writer.written == w0 + LinesWrites(CompleteLines(dec), parse)
    modifies writer
    ensures !writer.closed
    ensures rest == Remainder(dec + (if value.Some? then value.value else ""))
    ensures writer.written == w0 + LinesWrites(CompleteLines(dec + (if value.Some? then value.value else "")), parse)
  {
    if value.Some? {
      rest := ForwardChunk(buffer, value.value, parse, writer);
      PumpStep(w0, dec, value.value, parse, writer.written);
      ChunkBoundary(dec, value.value);
    } else {
      rest := buffer;
      assert dec + "" == dec;
    }
  }

  /** The decoding task (lines 66-124): the read loop, then the flush of the
      remainder at the end, or the error marker if a read failed, and the
      writer closed on every path. */
  method Pump(chunks: seq<Option<string>>, ending: Ending, parse: string -> ParseResult, writer: Writer)
    requires !writer.closed
    modifies writer
    ensures writer.closed
    ensures writer.written == old(writer.written) + StreamWrites(Decoded(chunks), ending, parse)
  {
    var buffer := ReadChunks(chunks, parse, writer);
    ghost var lines := LinesWrites(CompleteLines(Decoded(chunks)), parse);
    if ending == Done {
      FlushRemainder(buffer, parse, writer);
      ConcatAssoc(old(writer.written), lines, FlushWrites(buffer, parse));
    } else {
      writer.Write(StreamError);
      ConcatAssoc(old(writer.written), lines, [StreamError]);
    }
    writer.Close();
  }

  /** The writes of one more chunk `v` after the text `d`, as the relay
      makes them from the kept remainder, are the writes of `d + v`. */
  lemma PumpStep(w0: seq<string>, d: string, v: string, parse: string -> ParseResult, w1: seq<string>)
    requires w1 == w0 + LinesWrites(CompleteLines(d), parse) + LinesWrites(CompleteLines(Remainder(d) + v), parse)
    ensures w1 == w0 + LinesWrites(CompleteLines(d + v), parse)
  {
    ChunkBoundary(d, v);
    FlatMapConcat(CompleteLines(d), CompleteLines(Remainder(d) + v), LineHandler(parse));
    ConcatAssoc(w0, LinesWrites(CompleteLines(d), parse), LinesWrites(CompleteLines(Remainder(d) + v), parse));
  }

  // ---------------------------------------------------------------------------
  // The endpoint
  // ---------------------------------------------------------------------------

  /** The body of a successful upstream response. */
  datatype UpstreamBody = NoReader | ReaderThrew | Readable(chunks: seq<Option<string>>, ending: Ending)

  /** What `fetch` to the model server produced. `details` is the error body
      text, already `""` when reading it failed. */
  datatype Upstream =
    | FetchThrew(message: string)
    | NotOk(status: int, details: string)
    | Delivered(contentType: Option<string>, body: UpstreamBody)

  datatype ErrorBody = ErrorBody(error: string, status: Option<int>, details: Option<string>)

  datatype Response =
    | JsonResponse(status: int, body: ErrorBody)
      /** The upstream body forwarded untouched. */
    | RawResponse(contentType: string, cacheControl: string)
      /** The relayed text stream, as the pieces the client receives. */
    | TextResponse(contentType: string, cacheControl: string, pieces: seq<string>)

  const PlainText: string := "text/plain; charset=utf-8"
  const OctetStream: string := "application/octet-stream"
  const NoTransform: string := "no-transform"

  /** `POST /api/ai/process`. `fetchModel` is the model server, called at most
      once with the payload built from the request. */
  method Post(body: RequestBody, fetchModel: Payload -> Upstream, parse: string -> ParseResult)
    returns (resp: Response)
    ensures body.Unreadable? ==> resp == JsonResponse(500, ErrorBody(body.message, None, None))
    ensures body.Body? && !Admissible(body.request) ==> resp == JsonResponse(400, ErrorBody(MissingInput, None, None))
    ensures body.Body? && Admissible(body.request) ==>
              match fetchModel(BuildPayload(body.request))
              case FetchThrew(m) => resp == JsonResponse(500, ErrorBody(m, None, None))
              case NotOk(status, details) => resp == JsonResponse(502, ErrorBody("Ollama error", Some(status), Some(details)))
              case Delivered(ct, Readable(chunks, ending)) =>
                resp == TextResponse(PlainText, NoTransform, StreamWrites(Decoded(chunks), ending, parse))
              case Delivered(ct, _) => resp == RawResponse(Or(ct, OctetStream), NoTransform)
  {
    if body.Unreadable? {
      return JsonResponse(500, ErrorBody(body.message, None, None));
    }
    var req := body.request;
    if !Truthy(req.prompt) && !Truthy(req.emailContent) {
      return JsonResponse(400, ErrorBody(MissingInput, None, None));
    }
    var payload := BuildPayload(req);
    var upstream := fetchModel(payload);
    match upstream {
      case FetchThrew(m) =>
        resp := JsonResponse(500, ErrorBody(m, None, None));
      case NotOk(status, details) =>
        resp := JsonResponse(502, ErrorBody("Ollama error", Some(status), Some(details)));
      case Delivered(ct, upBody) =>
        resp := Forward(ct, upBody, parse);
    }
  }

  /** A successful upstream response: relayed as text through the decoding
      task when its body can be read, forwarded untouched otherwise. */
  method Forward(ct: Option<string>, upBody: UpstreamBody, parse: string -> ParseResult)
    returns (resp: Response)
    ensures upBody.Readable? ==>
              resp == TextResponse(PlainText, NoTransform, StreamWrites(Decoded(upBody.chunks), upBody.ending, parse))
    ensures !upBody.Readable? ==> resp == RawResponse(Or(ct, OctetStream), NoTransform)
  {
    var contentType := Or(ct, OctetStream);
    match upBody {
      case NoReader =>
        resp := RawResponse(contentType, NoTransform);
      case ReaderThrew =>
        resp := RawResponse(contentType, NoTransform);
      case Readable(chunks, ending) =>
        var writer := new Writer();
        Pump(chunks, ending, parse, writer);
        resp := TextResponse(PlainText, NoTransform, writer.written);
    }
  }
}
