/**
 * The chat-stream consumer of the floating chat widget (`streamChat` in
 * src/components/AIChat.tsx). The response body arrives as chunks of decoded
 * text; a line buffer carries the unterminated tail between reads, every
 * complete line is classified, `data: ` payloads are handed to an abstract
 * JSON parser, and every non-empty delta is appended to the assistant message.
 */
module ChatStream {
  import opened Wrappers
  import opened JsStrings

  /**
   * `JSON.parse(payload)` followed by `parsed.choices?.[0]?.delta?.content`:
   * `None` when parsing throws, `Some(None)` when the parsed value has no
   * string content at that path, `Some(Some(c))` when it does.
   */
  type Parser = string -> Option<Option<string>>

  datatype Role = User | Assistant
  datatype Message = Message(role: Role, content: string)

  const Apology: string := "Sorry, I encountered an error. Please try again."
  const DataPrefix: string := "data: "
  const DoneSentinel: string := "[DONE]"

  // ---------------------------------------------------------------------------
  // Line framing: the lines terminated by '\n' and the pending tail
  // ---------------------------------------------------------------------------

  /** The '\n'-terminated lines of `text`, in order, without their terminators. */
  function CompleteLines(text: string): seq<string>
  {
    var pieces := Split(text, '\n');
    pieces[..|pieces| - 1]
  }

  /** The text after the last '\n' of `text` (all of it when there is none). */
  function Pending(text: string): string
  {
    var pieces := Split(text, '\n');
    pieces[|pieces| - 1]
  }

  /** Every text is its complete lines, each ended by '\n', followed by the pending tail. */
  lemma LinesCover(text: string)
    ensures forall k :: 0 <= k < |CompleteLines(text)| ==> '\n' !in CompleteLines(text)[k]
    ensures '\n' !in Pending(text)
    ensures text == Join(CompleteLines(text) + [Pending(text)], '\n')
  {
    var pieces := Split(text, '\n');
    SplitPiecesFree(text, '\n');
    assert CompleteLines(text) + [Pending(text)] == pieces;
    JoinSplit(text, '\n');
  }

  /** Conversely, lines and a tail free of '\n' are recovered from the text they make up. */
  lemma LinesUnique(lines: seq<string>, tail: string)
    requires forall k :: 0 <= k < |lines| ==> '\n' !in lines[k]
    requires '\n' !in tail
    ensures CompleteLines(Join(lines + [tail], '\n')) == lines
    ensures Pending(Join(lines + [tail], '\n')) == tail
  {
    var pieces := lines + [tail];
    assert forall k :: 0 <= k < |pieces| ==> '\n' !in pieces[k] by {
      forall k | 0 <= k < |pieces| ensures '\n' !in pieces[k] {
        if k < |lines| {
          assert pieces[k] == lines[k];
        }
      }
    }
    SplitJoin(pieces, '\n');
    assert pieces[..|pieces| - 1] == lines;
  }

  /**
   * Chunk boundaries do not matter: the lines of `a + b` are the lines of `a`
   * followed by the lines completed once `b` is appended to `a`'s tail, and the
   * final tail is the same.
   */
  lemma LinesAppend(a: string, b: string)
    ensures CompleteLines(a + b) == CompleteLines(a) + CompleteLines(Pending(a) + b)
    ensures Pending(a + b) == Pending(Pending(a) + b)
  {
    SplitAppend(a, b, '\n');
    var pa := Split(a, '\n');
    var rest := Split(Pending(a) + b, '\n');
    var all := Split(a + b, '\n');
    assert all == pa[..|pa| - 1] + rest;
    assert all[..|all| - 1] == pa[..|pa| - 1] + rest[..|rest| - 1];
  }

  /**
   * One read, as the loop performs it: splitting the old buffer plus the chunk
   * yields the lines completed by the chunk and the new buffer, which together
   * continue the framing of everything received.
   */
  lemma ReadStep(received: string, chunk: string)
    ensures var pieces := Split(Pending(received) + chunk, '\n');
            && pieces[..|pieces| - 1] == CompleteLines(Pending(received) + chunk)
            && pieces[|pieces| - 1] == Pending(received + chunk)
            && CompleteLines(received + chunk) == CompleteLines(received) + pieces[..|pieces| - 1]
  {
    LinesAppend(received, chunk);
  }

  /** A tail without '\n' added to the text completes no line. */
  lemma UnterminatedTailIgnored(text: string, tail: string)
    requires '\n' !in tail
    ensures CompleteLines(text + tail) == CompleteLines(text)
    ensures Pending(text + tail) == Pending(text) + tail
  {
    LinesAppend(text, tail);
    LinesCover(text);
    IndexOfAbsent(Pending(text) + tail, '\n');
    assert Split(Pending(text) + tail, '\n') == [Pending(text) + tail];
  }

  // ---------------------------------------------------------------------------
  // Classification of one complete line
  // ---------------------------------------------------------------------------

  /** Removes one trailing carriage return, if there is one. */
  function StripCR(line: string): (r: string)
    ensures |r| <= |line| && r == line[..|r|]
    ensures |r| == |line| || |r| == |line| - 1
    ensures |r| < |line| <==> EndsWith(line, "\r")
  {
    if EndsWith(line, "\r") then line[..|line| - 1] else line
  }

  datatype LineKind = Comment | Blank | Unknown | Sentinel | Data(payload: string)

  /** The classification of a line whose carriage return has already been stripped. */
  function ClassifyStripped(line: string): LineKind
  {
    if StartsWith(line, ":") || Trim(line) == "" then
      (if StartsWith(line, ":") then Comment else Blank)
    else if !StartsWith(line, DataPrefix) then Unknown
    else
      var payload := Trim(line[|DataPrefix|..]);
      if payload == DoneSentinel then Sentinel else Data(payload)
  }

  /**
   * The classification rules: a comment starts with ':', a blank line is all
   * whitespace, exactly the lines starting with "data: " (with the space) carry
   * a payload, which is the rest of the line trimmed, and "[DONE]" is set apart.
   */
  lemma ClassifyRules(line: string)
    ensures ClassifyStripped(line).Comment? <==> StartsWith(line, ":")
    ensures ClassifyStripped(line).Blank? <==> !StartsWith(line, ":") && AllWhitespace(line)
    ensures ClassifyStripped(line).Sentinel? || ClassifyStripped(line).Data? <==> StartsWith(line, DataPrefix)
    ensures ClassifyStripped(line).Sentinel? ==> Trim(line[|DataPrefix|..]) == DoneSentinel
    ensures ClassifyStripped(line).Data? ==>
              ClassifyStripped(line).payload == Trim(line[|DataPrefix|..]) && ClassifyStripped(line).payload != DoneSentinel
  {
    TrimSpec(line);
    if StartsWith(line, DataPrefix) {
      assert line[0] == 'd';
    }
  }

  /** What the read loop makes of one complete line, in the order its guards are tried. */
  function Classify(raw: string): LineKind
  {
    ClassifyStripped(StripCR(raw))
  }

  /** The text a line of the given kind appends to the assistant message. */
  function KindContent(parse: Parser, k: LineKind): string
  {
    match k
    case Data(payload) =>
      (match parse(payload)
       case Some(Some(content)) => content
       case _ => "")
    case _ => ""
  }

  /** The text one complete line appends to the assistant message. */
  function LineContent(parse: Parser, raw: string): string
  {
    KindContent(parse, Classify(raw))
  }

  /** Only a `data: ` line whose payload parses with content contributes, and it contributes that content. */
  lemma ContentOnlyFromData(parse: Parser, raw: string)
    ensures LineContent(parse, raw) != "" ==>
              Classify(raw).Data? && parse(Classify(raw).payload) == Some(Some(LineContent(parse, raw)))
    ensures Classify(raw).Data? && parse(Classify(raw).payload).Some? && parse(Classify(raw).payload).value.Some? ==>
              LineContent(parse, raw) == parse(Classify(raw).payload).value.value
  {
    var k := Classify(raw);
    if k.Data? {
      var r := parse(k.payload);
      assert LineContent(parse, raw) == if r.Some? && r.value.Some? then r.value.value else "";
    } else {
      assert LineContent(parse, raw) == "";
    }
  }

  /** Comment, blank and non-`data: ` lines contribute nothing, whatever the parser. */
  lemma IgnoredLines(parse: Parser, raw: string)
    requires var line := StripCR(raw);
             StartsWith(line, ":") || AllWhitespace(line) || !StartsWith(line, DataPrefix)
    ensures LineContent(parse, raw) == ""
  {
  }

  /** A payload that fails to parse, or that carries no content, is dropped. */
  lemma DroppedPayloads(parse: Parser, raw: string)
    requires Classify(raw).Data?
    requires parse(Classify(raw).payload).None? || parse(Classify(raw).payload) == Some(None)
    ensures LineContent(parse, raw) == ""
  {
  }

  /** The `[DONE]` sentinel is a no-op, and lines after it are still read. */
  lemma SentinelIsNoOp(parse: Parser, sentinel: string, rest: seq<string>)
    requires Classify(sentinel).Sentinel?
    ensures Assemble(parse, [sentinel] + rest) == Assemble(parse, rest)
  {
    AssembleAppend(parse, [sentinel], rest);
    assert [sentinel][..0] == [];
    assert Contents(parse, [sentinel]) == [""];
    assert Concat([""]) == Concat([]) + "";
  }

  // ---------------------------------------------------------------------------
  // Message assembly
  // ---------------------------------------------------------------------------

  /** All parts concatenated in order (the chunks of a body, or the contents of lines). */
  function Concat(parts: seq<string>): string
  {
    if parts == [] then "" else Concat(parts[..|parts| - 1]) + parts[|parts| - 1]
  }

  lemma {:induction false} ConcatAppend(a: seq<string>, b: seq<string>)
    ensures Concat(a + b) == Concat(a) + Concat(b)
    decreases |b|
  {
    if b == [] {
      assert a + b == a;
    } else {
      var init := b[..|b| - 1];
      assert (a + b)[..|a + b| - 1] == a + init;
      assert (a + b)[|a + b| - 1] == b[|b| - 1];
      ConcatAppend(a, init);
      assert Concat(b) == Concat(init) + b[|b| - 1];
    }
  }

  /** The chunks read so far, one chunk further. */
  lemma ConcatTake(parts: seq<string>, n: nat)
    requires n < |parts|
    ensures Concat(parts[..n + 1]) == Concat(parts[..n]) + parts[n]
  {
    assert parts[..n + 1][..n] == parts[..n];
  }

  /** The content of each line, in order. */
  function Contents(parse: Parser, lines: seq<string>): seq<string>
  {
    if lines == [] then []
    else Contents(parse, lines[..|lines| - 1]) + [LineContent(parse, lines[|lines| - 1])]
  }

  /** The assistant message after processing `lines`: their contents, concatenated in order. */
  function Assemble(parse: Parser, lines: seq<string>): string
  {
    Concat(Contents(parse, lines))
  }

  /**
   * The assistant contents handed to `setMessages`: one for each non-empty
   * part, the concatenation of the parts so far.
   */
  function Snapshots(parts: seq<string>): seq<string>
  {
    if parts == [] then []
    else
      Snapshots(parts[..|parts| - 1])
      + (if parts[|parts| - 1] != "" then [Concat(parts)] else [])
  }

  lemma {:induction false} ContentsAppend(parse: Parser, a: seq<string>, b: seq<string>)
    ensures Contents(parse, a + b) == Contents(parse, a) + Contents(parse, b)
    decreases |b|
  {
    if b == [] {
      assert a + b == a;
    } else {
      assert (a + b)[..|a + b| - 1] == a + b[..|b| - 1];
      ContentsAppend(parse, a, b[..|b| - 1]);
    }
  }

  /** Processing one more line appends its content, and renders once exactly when that content is non-empty. */
  lemma AssembledStep(parse: Parser, lines: seq<string>, raw: string)
    ensures Contents(parse, lines + [raw]) == Contents(parse, lines) + [LineContent(parse, raw)]
    ensures Assemble(parse, lines + [raw]) == Assemble(parse, lines) + LineContent(parse, raw)
    ensures Snapshots(Contents(parse, lines + [raw]))
         == Snapshots(Contents(parse, lines))
            + (if LineContent(parse, raw) != "" then [Assemble(parse, lines + [raw])] else [])
  {
    assert (lines + [raw])[..|lines|] == lines;
    var cs := Contents(parse, lines + [raw]);
    assert cs[..|cs| - 1] == Contents(parse, lines);
  }

  /** The message assembled from two runs of lines is the two messages concatenated. */
  lemma AssembleAppend(parse: Parser, a: seq<string>, b: seq<string>)
    ensures Assemble(parse, a + b) == Assemble(parse, a) + Assemble(parse, b)
  {
    ContentsAppend(parse, a, b);
    ConcatAppend(Contents(parse, a), Contents(parse, b));
  }

  /** Each assistant message is a prefix of every later one. */
  lemma AssemblePrefix(parse: Parser, a: seq<string>, b: seq<string>)
    ensures StartsWith(Assemble(parse, a + b), Assemble(parse, a))
  {
    AssembleAppend(parse, a, b);
  }

  /**
   * There are rendered contents exactly when the concatenation is non-empty,
   * and the last one rendered is the whole concatenation.
   */
  lemma {:induction false} SnapshotsLast(parts: seq<string>)
    ensures Snapshots(parts) == [] <==> Concat(parts) == ""
    ensures Snapshots(parts) != [] ==> Snapshots(parts)[|Snapshots(parts)| - 1] == Concat(parts)
  {
    if parts != [] {
      var init := parts[..|parts| - 1];
      SnapshotsLast(init);
    }
  }

  /** The rendered contents grow: each snapshot is a proper prefix of the next. */
  lemma {:induction false} SnapshotsGrow(parts: seq<string>)
    ensures forall i :: 0 < i < |Snapshots(parts)| ==> ProperPrefix(Snapshots(parts)[i - 1], Snapshots(parts)[i])
  {
    if parts != [] {
      var init := parts[..|parts| - 1];
      SnapshotsGrow(init);
      SnapshotsLast(init);
      var s0 := Snapshots(init);
      var s := Snapshots(parts);
      var c := parts[|parts| - 1];
      if c != "" {
        assert s == s0 + [Concat(parts)];
        forall i | 0 < i < |s| ensures ProperPrefix(s[i - 1], s[i]) {
          if i < |s0| {
            assert s[i - 1] == s0[i - 1] && s[i] == s0[i];
          } else {
            assert s[i] == Concat(init) + c;
            if s0 != [] {
              assert s[i - 1] == Concat(init);
            }
          }
        }
      } else {
        assert s == s0;
      }
    }
  }

  /** `a` is a proper prefix of `b`. */
  predicate ProperPrefix(a: string, b: string)
  {
    |a| < |b| && b[..|a|] == a
  }

  /** Taking one more element of `s` after `pre`. */
  lemma ExtendTake(pre: seq<string>, s: seq<string>, i: nat)
    requires i < |s|
    ensures pre + s[..i] + [s[i]] == pre + s[..i + 1]
  {
    assert s[..i + 1] == s[..i] + [s[i]];
  }

  // ---------------------------------------------------------------------------
  // The consumer: line buffer and assistant message kept between reads
  // ---------------------------------------------------------------------------

  class StreamConsumer {
    const parse: Parser
    /** The unterminated tail kept for the next read (`buffer`). */
    var buffer: string
    /** The reply assembled so far (`assistantMessage`). */
    var assistantMessage: string
    /** The assistant contents passed to `setMessages`, oldest first. */
    var updates: seq<string>
    /** All decoded text received so far. */
    ghost var received: string
    /** The complete lines processed so far. */
    ghost var lines: seq<string>

    /** The message and the rendered contents agree with the lines processed so far. */
    ghost predicate Assembled()
      reads this
    {
      assistantMessage == Assemble(parse, lines) && updates == Snapshots(Contents(parse, lines))
    }

    ghost predicate Valid()
      reads this
    {
      && lines == CompleteLines(received)
      && buffer == Pending(received)
      && Assembled()
      && Rendered()
    }

    /** Something has been rendered exactly when the message is non-empty, and the last rendering is the message. */
    predicate Rendered()
      reads this
    {
      && (updates == [] <==> assistantMessage == "")
      && (updates != [] ==> updates[|updates| - 1] == assistantMessage)
    }

    constructor (parse: Parser)
      ensures Valid() && this.parse == parse
      ensures received == "" && buffer == "" && assistantMessage == "" && updates == []
    {
      this.parse := parse;
      buffer, assistantMessage, updates := "", "", [];
      received, lines := "", [];
    }

    /** The body of the inner `for` loop: classifies one complete line and appends its content. */
    method ProcessLine(raw: string)
      requires Assembled()
      modifies this`assistantMessage, this`updates, this`lines
      ensures lines == old(lines) + [raw]
      ensures Assembled()
    {
      AssembledStep(parse, lines, raw);
      lines := lines + [raw];
      var line := raw;
      if EndsWith(line, "\r") {
        line := line[..|line| - 1];
      }
      assert line == StripCR(raw);
      if StartsWith(line, ":") || Trim(line) == "" {
        assert Classify(raw).Comment? || Classify(raw).Blank?;
        assert LineContent(parse, raw) == "";
        return;
      }
      if !StartsWith(line, DataPrefix) {
        assert Classify(raw) == Unknown;
        return;
      }
      var jsonStr := Trim(line[|DataPrefix|..]);
      if jsonStr == DoneSentinel {
        assert Classify(raw) == Sentinel;
        return;
      }
      assert Classify(raw) == Data(jsonStr);
      match parse(jsonStr)
      case Some(Some(content)) =>
        if content != "" {
          assistantMessage := assistantMessage + content;
          updates := updates + [assistantMessage];
        }
      case _ =>
    }

    /** The inner `for` loop: processes the completed lines in order. */
    method ProcessLines(complete: seq<string>)
      requires Assembled()
      modifies this`assistantMessage, this`updates, this`lines
      ensures lines == old(lines) + complete
      ensures Assembled()
    {
      for i := 0 to |complete|
        invariant lines == old(lines) + complete[..i]
        invariant Assembled()
      {
        ExtendTake(old(lines), complete, i);
        ProcessLine(complete[i]);
      }
      assert complete[..|complete|] == complete;
    }

    /** One iteration of the read loop: appends a decoded chunk and processes every completed line. */
    method OnChunk(chunk: string)
      requires Valid()
      modifies this
      ensures Valid()
      ensures received == old(received) + chunk
      ensures lines == old(lines) + CompleteLines(old(buffer) + chunk)
      ensures buffer == Pending(old(buffer) + chunk)
      ensures assistantMessage == old(assistantMessage) + Assemble(parse, CompleteLines(old(buffer) + chunk))
    {
      ReadStep(received, chunk);
      buffer := buffer + chunk;
      var pieces := Split(buffer, '\n');
      var complete := pieces[..|pieces| - 1];
      buffer := pieces[|pieces| - 1];
      received := received + chunk;
      AssembleAppend(parse, lines, complete);
      ghost var before := lines;
      ProcessLines(complete);
      assert lines == before + complete == CompleteLines(received);
      SnapshotsLast(Contents(parse, lines));
      assert Rendered();
    }
  }

  // ---------------------------------------------------------------------------
  // One send: the request outcome, the read loop and the fallback message
  // ---------------------------------------------------------------------------

  datatype StreamEnd = Done | ReadFailed

  /**
   * What the completions request yields: `fetch` rejects, the response is not
   * ok, it has no body, or its body is read as `chunks` and then ends with
   * `done` or with a failing read.
   */
  datatype Reply = FetchFailed | NotOk | NoBody | Body(chunks: seq<string>, end: StreamEnd)

  /** The messages shown once the stream has been read to its end. */
  function Completed(newMessages: seq<Message>, assembled: string): seq<Message>
  {
    if assembled == "" then newMessages else newMessages + [Message(Assistant, assembled)]
  }

  /**
   * `streamChat`: returns the message list shown when the call finishes.
   * Failures before or during reading end with the fixed apology; otherwise the
   * reply is assembled from the complete lines of all chunks together, so the
   * result does not depend on where the chunk boundaries fall, and an
   * unterminated last line is never processed.
   */
  method StreamChat(history: seq<Message>, userMessage: string, reply: Reply, parse: Parser)
    returns (messages: seq<Message>)
    ensures reply.Body? && reply.end == Done ==>
              messages == Completed(history + [Message(User, userMessage)],
                                    Assemble(parse, CompleteLines(Concat(reply.chunks))))
    ensures !(reply.Body? && reply.end == Done) ==>
              messages == history + [Message(User, userMessage), Message(Assistant, Apology)]
  {
    var newMessages := history + [Message(User, userMessage)];
    messages := newMessages;
    if !reply.Body? {
      messages := newMessages + [Message(Assistant, Apology)];
      return;
    }
    var consumer := new StreamConsumer(parse);
    var next := 0;
    while true
      invariant 0 <= next <= |reply.chunks|
      invariant consumer.Valid() && consumer.parse == parse
      invariant consumer.received == Concat(reply.chunks[..next])
      invariant messages == Completed(newMessages, consumer.assistantMessage)
      decreases |reply.chunks| - next
    {
      if next == |reply.chunks| {
        if reply.end == ReadFailed {
          messages := newMessages + [Message(Assistant, Apology)];
          return;
        }
        break;
      }
      ConcatTake(reply.chunks, next);
      consumer.OnChunk(reply.chunks[next]);
      next := next + 1;
      if consumer.updates != [] {
        messages := newMessages + [Message(Assistant, consumer.updates[|consumer.updates| - 1])];
      }
    }
    assert reply.chunks[..next] == reply.chunks;
  }

  /**
   * A last chunk without '\n' adds nothing to the messages shown: the line it
   * starts or continues is never completed. (That the chunking itself does
   * not matter is `StreamChat`'s postcondition, which depends on the chunks
   * only through their concatenation.)
   */
  lemma UnterminatedLastChunkIgnored(newMessages: seq<Message>, parse: Parser, chunks: seq<string>, tail: string)
    requires '\n' !in tail
    ensures Completed(newMessages, Assemble(parse, CompleteLines(Concat(chunks + [tail]))))
         == Completed(newMessages, Assemble(parse, CompleteLines(Concat(chunks))))
  {
    assert (chunks + [tail])[..|chunks|] == chunks;
    UnterminatedTailIgnored(Concat(chunks), tail);
  }

  /** A `data: ` line whose payload is already trimmed, is not the sentinel and does not end in '\r' carries that payload. */
  lemma DataLine(payload: string)
    requires payload != [] && !IsWhitespace(payload[0]) && !IsWhitespace(payload[|payload| - 1])
    requires payload != DoneSentinel
    ensures Classify(DataPrefix + payload) == Data(payload)
  {
    var line := DataPrefix + payload;
    assert !EndsWith(line, "\r") by {
      assert line[|line| - 1] == payload[|payload| - 1];
    }
    assert line[|DataPrefix|..] == payload;
    assert line[..|DataPrefix|] == DataPrefix;
    assert TrimStart(payload) == payload;
    assert TrimEnd(payload) == payload;
    assert line[0] == 'd';
    TrimSpec(line);
  }

  /** The sentinel line is classified as such. */
  lemma SentinelLine()
    ensures Classify(DataPrefix + DoneSentinel) == Sentinel
  {
    var l := DataPrefix + DoneSentinel;
    assert l == "data: [DONE]";
    assert StripCR(l) == l;
    assert l[|DataPrefix|..] == DoneSentinel;
    assert TrimStart(DoneSentinel) == DoneSentinel && TrimEnd(DoneSentinel) == DoneSentinel;
    TrimSpec(l);
  }

  /**
   * A `data: ` line whose payload fails to parse, or parses without content,
   * is skipped and reading goes on with the next line: the message is what
   * the lines around it make on their own.
   */
  lemma ParseFailureSkipped(parse: Parser, before: seq<string>, bad: string, after: seq<string>)
    requires Classify(bad).Data?
    requires parse(Classify(bad).payload).None? || parse(Classify(bad).payload) == Some(None)
    ensures Assemble(parse, before + [bad] + after) == Assemble(parse, before) + Assemble(parse, after)
  {
    AssembleAppend(parse, before + [bad], after);
    AssembledStep(parse, before, bad);
  }
}
