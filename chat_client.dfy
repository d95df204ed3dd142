/**
 * The chat screen's `sendMessage`: the guard on the input, the request it sends, and the loop that
 * consumes the relay's event stream, growing a placeholder assistant message as deltas arrive.
 */
module ChatClient {
  import opened Wrappers
  import opened Text
  import opened LineFramer

  datatype Message = Message(id: string, content: string, role: string)

  /** The body posted to `/api/chat`. */
  datatype Request = Request(message: string, sessionId: Option<string>, messages: seq<Message>)

  /**
   * `JSON.parse(data)` of one frame: its `content` and `sessionId` fields (a missing field is
   * the empty string, which is falsy), or the parse throwing.
   */
  datatype Parsed = Parsed(content: string, sessionId: string) | ParseError

  const FALLBACK := "I'm sorry, I'm having trouble responding right now. Please try again in a moment, or if you need immediate help, please call 988 for crisis support."

  /** `prev.map(msg => msg.id === id ? { ...msg, content } : msg)` */
  function WithContent(messages: seq<Message>, id: string, content: string): (r: seq<Message>)
    ensures |r| == |messages|
    ensures forall i :: 0 <= i < |r| ==> r[i].id == messages[i].id && r[i].role == messages[i].role
    ensures forall i :: 0 <= i < |r| ==> r[i].content == if messages[i].id == id then content else messages[i].content
  {
    seq(|messages|, i requires 0 <= i < |messages| =>
      if messages[i].id == id then messages[i].(content := content) else messages[i])
  }

  // ---------------------------------------------------------------------------
  // The frame consumer as functions
  // ---------------------------------------------------------------------------

  /**
   * What the frame loop reads and writes. `contents` records the non-empty deltas in arrival
   * order; `stopped` is set by `[DONE]` and ends only the loop over the current chunk's lines.
   */
  datatype Reader = Reader(accumulator: string, contents: seq<string>, messages: seq<Message>,
                           sessionId: Option<string>, newSessions: seq<string>, stopped: bool)

  /**
   * One complete line. `assistantId` is the placeholder's id and `captured` the session id the
   * call started with (the closure's value, which `setSessionId` does not change).
   */
  function Step(st: Reader, line: string, assistantId: string, captured: Option<string>, decode: string -> Parsed): Reader {
    if st.stopped || !IsDataLine(line) then st
    else
      var data := Payload(line);
      if data == DONE then st.(stopped := true)
      else
        match decode(data)
        case ParseError => st
        case Parsed(content, sid) => Apply(st, content, sid, assistantId, captured)
  }

  /** A parsed frame: a non-empty delta grows the reply, and a session id is taken up if none was. */
  function Apply(st: Reader, content: string, sid: string, assistantId: string, captured: Option<string>): Reader {
    var grown :=
      if content != "" then
        st.(accumulator := st.accumulator + content, contents := st.contents + [content],
            messages := WithContent(st.messages, assistantId, st.accumulator + content))
      else st;
    if sid != "" && !TruthyString(captured) then
      grown.(sessionId := Some(sid), newSessions := grown.newSessions + [sid])
    else grown
  }

  function Lines(st: Reader, lines: seq<string>, assistantId: string, captured: Option<string>, decode: string -> Parsed): Reader {
    if lines == [] then st
    else Step(Lines(st, lines[..|lines| - 1], assistantId, captured, decode), lines[|lines| - 1], assistantId, captured, decode)
  }

  /** One chunk from `reader.read()`: frame it, run its lines, and carry the partial line over. */
  function AfterChunk(st: Reader, buffer: string, chunk: string, assistantId: string, captured: Option<string>,
                      decode: string -> Parsed): (Reader, string)
  {
    var (lines, rest) := Frame(buffer, chunk);
    (Lines(st.(stopped := false), lines, assistantId, captured, decode).(stopped := false), rest)
  }

  /**
   * The placeholder at index `p` shows the accumulated reply, and the reply is the concatenation
   * of the non-empty deltas in arrival order.
   */
  predicate ReaderInvariant(st: Reader, p: nat, assistantId: string) {
    && st.accumulator == Concat(st.contents)
    && (forall i :: 0 <= i < |st.contents| ==> st.contents[i] != "")
    && p < |st.messages|
    && st.messages[p] == Message(assistantId, st.accumulator, "assistant")
  }

  lemma StepKeepsInvariant(st: Reader, line: string, p: nat, assistantId: string, captured: Option<string>, decode: string -> Parsed)
    requires ReaderInvariant(st, p, assistantId)
    ensures ReaderInvariant(Step(st, line, assistantId, captured, decode), p, assistantId)
  {
    if !st.stopped && IsDataLine(line) && Payload(line) != DONE && decode(Payload(line)).Parsed? {
      var content := decode(Payload(line)).content;
      if content != "" {
        GrowKeepsInvariant(st, content, p, assistantId);
      }
    }
  }

  /** Appending a non-empty delta grows the reply and the placeholder alike. */
  lemma GrowKeepsInvariant(st: Reader, content: string, p: nat, assistantId: string)
    requires ReaderInvariant(st, p, assistantId) && content != ""
    ensures ReaderInvariant(st.(accumulator := st.accumulator + content, contents := st.contents + [content],
                                messages := WithContent(st.messages, assistantId, st.accumulator + content)),
                            p, assistantId)
  {
    ConcatAppend(st.contents, [content]);
    assert Concat([content]) == Concat([]) + content;
    var cs := st.contents + [content];
    forall i | 0 <= i < |cs|
      ensures cs[i] != ""
    {
      if i < |st.contents| {
        assert cs[i] == st.contents[i];
      }
    }
  }

  /** The empty placeholder just appended shows the empty reply. */
  lemma FreshReader(messages: seq<Message>, id: string, sessionId: Option<string>, newSessions: seq<string>)
    ensures ReaderInvariant(Reader("", [], messages + [Message(id, "", "assistant")], sessionId, newSessions, false),
                            |messages|, id)
  {
  }

  lemma {:induction false} LinesKeepInvariant(st: Reader, lines: seq<string>, p: nat, assistantId: string,
                                              captured: Option<string>, decode: string -> Parsed)
    requires ReaderInvariant(st, p, assistantId)
    ensures ReaderInvariant(Lines(st, lines, assistantId, captured, decode), p, assistantId)
  {
    if lines != [] {
      LinesKeepInvariant(st, lines[..|lines| - 1], p, assistantId, captured, decode);
      StepKeepsInvariant(Lines(st, lines[..|lines| - 1], assistantId, captured, decode), lines[|lines| - 1], p, assistantId, captured, decode);
    }
  }

  /** Every chunk keeps the placeholder equal to the concatenated deltas. */
  lemma ChunkKeepsInvariant(st: Reader, buffer: string, chunk: string, p: nat, assistantId: string,
                            captured: Option<string>, decode: string -> Parsed)
    requires ReaderInvariant(st, p, assistantId)
    ensures ReaderInvariant(AfterChunk(st, buffer, chunk, assistantId, captured, decode).0, p, assistantId)
  {
    var (lines, rest) := Frame(buffer, chunk);
    LinesKeepInvariant(st.(stopped := false), lines, p, assistantId, captured, decode);
  }

  lemma {:induction false} StoppedIgnoresLines(st: Reader, lines: seq<string>, assistantId: string,
                                               captured: Option<string>, decode: string -> Parsed)
    requires st.stopped
    ensures Lines(st, lines, assistantId, captured, decode) == st
  {
    if lines != [] {
      StoppedIgnoresLines(st, lines[..|lines| - 1], assistantId, captured, decode);
    }
  }

  lemma {:induction false} LinesCompose(st: Reader, a: seq<string>, b: seq<string>, assistantId: string,
                                        captured: Option<string>, decode: string -> Parsed)
    ensures Lines(st, a + b, assistantId, captured, decode)
         == Lines(Lines(st, a, assistantId, captured, decode), b, assistantId, captured, decode)
    decreases |b|
  {
    if b == [] {
      assert a + b == a;
    } else {
      assert (a + b)[..|a + b| - 1] == a + b[..|b| - 1];
      LinesCompose(st, a, b[..|b| - 1], assistantId, captured, decode);
    }
  }

  /**
   * Once the call started with a session id, no frame changes the session id or announces a new
   * session; without one, every frame carrying a session id announces it again.
   */
  lemma {:induction false} CapturedSessionKept(st: Reader, lines: seq<string>, assistantId: string,
                                               captured: Option<string>, decode: string -> Parsed)
    requires TruthyString(captured)
    ensures var r := Lines(st, lines, assistantId, captured, decode);
      r.sessionId == st.sessionId && r.newSessions == st.newSessions
  {
    if lines != [] {
      CapturedSessionKept(st, lines[..|lines| - 1], assistantId, captured, decode);
    }
  }

  lemma AnnouncedWhileUncaptured(st: Reader, data: string, assistantId: string, captured: Option<string>, decode: string -> Parsed)
    requires !st.stopped && !TruthyString(captured) && data != DONE
    requires decode(data).Parsed? && decode(data).sessionId != ""
    requires data != [] && !IsWhitespace(data[0]) && !IsWhitespace(data[|data| - 1])
    ensures var r := Step(st, DATA_PREFIX + data, assistantId, captured, decode);
      r.sessionId == Some(decode(data).sessionId) && r.newSessions == st.newSessions + [decode(data).sessionId]
  {
    PayloadOf(data);
  }

  /** A line that is not a `data: ` line, or whose payload does not parse, changes nothing. */
  lemma SkippedLines(st: Reader, line: string, assistantId: string, captured: Option<string>, decode: string -> Parsed)
    requires !IsDataLine(line) || (Payload(line) != DONE && decode(Payload(line)).ParseError?)
    ensures Step(st, line, assistantId, captured, decode) == st
  {
  }

  lemma PayloadOf(text: string)
    requires text != [] && !IsWhitespace(text[0]) && !IsWhitespace(text[|text| - 1])
    ensures IsDataLine(DATA_PREFIX + text) && Payload(DATA_PREFIX + text) == text
  {
    assert (DATA_PREFIX + text)[..|DATA_PREFIX|] == DATA_PREFIX;
    assert (DATA_PREFIX + text)[|DATA_PREFIX|..] == text;
  }

  /**
   * `[DONE]` ends only the current chunk's line loop: a delta that arrives in a later chunk is
   * still appended to the reply.
   */
  lemma DoneEndsOnlyTheChunk(st: Reader, assistantId: string, captured: Option<string>, decode: string -> Parsed)
    requires decode("L") == Parsed("late", "") && !st.stopped
    ensures var (st1, b1) := AfterChunk(st, "", DATA_PREFIX + DONE + "\n", assistantId, captured, decode);
      AfterChunk(st1, b1, DATA_PREFIX + "L" + "\n", assistantId, captured, decode).0.accumulator == st.accumulator + "late"
  {
    DoneChunk(st, assistantId, captured, decode);
    LateChunk(st, assistantId, captured, decode);
  }

  /** A chunk that is one complete line runs just that line. */
  lemma OneLineChunk(st: Reader, line: string, assistantId: string, captured: Option<string>, decode: string -> Parsed)
    requires '\n' !in line
    ensures AfterChunk(st, "", line + "\n", assistantId, captured, decode)
         == (Step(st.(stopped := false), line, assistantId, captured, decode).(stopped := false), "")
  {
    FrameOneLine(line);
    var s := st.(stopped := false);
    assert [line][..0] == [];
    assert Lines(s, [line], assistantId, captured, decode) == Step(Lines(s, [], assistantId, captured, decode), line, assistantId, captured, decode);
  }

  lemma DoneChunk(st: Reader, assistantId: string, captured: Option<string>, decode: string -> Parsed)
    requires !st.stopped
    ensures AfterChunk(st, "", DATA_PREFIX + DONE + "\n", assistantId, captured, decode) == (st, "")
  {
    assert '\n' !in DATA_PREFIX + DONE;
    OneLineChunk(st, DATA_PREFIX + DONE, assistantId, captured, decode);
    PayloadOf(DONE);
    assert st.(stopped := false) == st;
  }

  lemma LateChunk(st: Reader, assistantId: string, captured: Option<string>, decode: string -> Parsed)
    requires decode("L") == Parsed("late", "") && !st.stopped
    ensures AfterChunk(st, "", DATA_PREFIX + "L" + "\n", assistantId, captured, decode).0.accumulator == st.accumulator + "late"
  {
    assert '\n' !in DATA_PREFIX + "L";
    OneLineChunk(st, DATA_PREFIX + "L", assistantId, captured, decode);
    PayloadOf("L");
    assert st.(stopped := false) == st;
    assert "L" != DONE;
  }

  /** A chunk holding exactly one complete line frames to that line and an empty buffer. */
  lemma FrameOneLine(line: string)
    requires '\n' !in line
    ensures Frame("", line + "\n") == ([line], "")
  {
    var r := Frame("", line + "\n");
    assert "" + (line + "\n") == Join([line, ""]);
    SplitUnique([line, ""]);
  }

  // ---------------------------------------------------------------------------
  // The component's state and `sendMessage`
  // ---------------------------------------------------------------------------

  datatype Phase = Idle | Awaiting | Reading

  class ChatScreen {
    var messages: seq<Message>
    var currentMessage: string
    var isLoading: bool
    var sessionId: Option<string>
    /** The requests sent, and the sessions announced through `onNewSession`. */
    var requests: seq<Request>
    var newSessions: seq<string>
    /** The locals of the `sendMessage` call in progress. */
    var phase: Phase
    var captured: Option<string>
    var assistantId: string
    var buffer: string
    var accumulator: string
    ghost var contents: seq<string>
    ghost var placeholder: nat
    const decode: string -> Parsed

    ghost function State(): Reader
      reads this
    {
      Reader(accumulator, contents, messages, sessionId, newSessions, false)
    }

    ghost predicate Valid()
      reads this
    {
      && (phase == Idle <==> !isLoading)
      && (phase == Reading ==> ReaderInvariant(State(), placeholder, assistantId) && '\n' !in buffer)
    }

    constructor (welcome: seq<Message>, decode: string -> Parsed)
      ensures Valid() && messages == welcome && phase == Idle && !isLoading && sessionId == None
      ensures currentMessage == "" && requests == [] && newSessions == [] && this.decode == decode
    {
      messages := welcome;
      currentMessage := "";
      isLoading := false;
      sessionId := None;
      requests := [];
      newSessions := [];
      phase := Idle;
      captured := None;
      assistantId := "";
      buffer := "";
      accumulator := "";
      contents := [];
      placeholder := 0;
      this.decode := decode;
    }

    method SetCurrentMessage(text: string)
      modifies this
      ensures currentMessage == text
      ensures messages == old(messages) && isLoading == old(isLoading) && phase == old(phase) && requests == old(requests)
      ensures sessionId == old(sessionId) && newSessions == old(newSessions) && buffer == old(buffer)
      ensures accumulator == old(accumulator) && contents == old(contents) && placeholder == old(placeholder)
      ensures assistantId == old(assistantId) && captured == old(captured)
    {
      currentMessage := text;
    }

    /**
     * The form's submit. A blank input or a request in flight does nothing; otherwise the trimmed
     * input is appended as a user message and sent with the prior messages and the session id.
     */
    method SendMessage(userMessageId: string) returns (sent: bool)
      requires Valid()
      modifies this
      ensures Valid()
      ensures sent <==> Trim(old(currentMessage)) != "" && !old(isLoading)
      ensures !sent ==> unchanged(this)
      ensures sent ==>
        var user := Message(userMessageId, Trim(old(currentMessage)), "user");
        && messages == old(messages) + [user]
        && requests == old(requests) + [Request(user.content, old(sessionId), old(messages) + [user])]
        && currentMessage == "" && isLoading && phase == Awaiting && captured == old(sessionId)
        && sessionId == old(sessionId) && newSessions == old(newSessions)
    {
      var text := Trim(currentMessage);
      if text == "" || isLoading {
        return false;
      }
      var user := Message(userMessageId, text, "user");
      requests := requests + [Request(text, sessionId, messages + [user])];
      messages := messages + [user];
      currentMessage := "";
      isLoading := true;
      captured := sessionId;
      phase := Awaiting;
      return true;
    }

    /** The response was ok and had a body: the empty placeholder is appended and reading starts. */
    method StartReading(id: string)
      requires Valid() && phase == Awaiting
      modifies this
      ensures Valid() && phase == Reading && isLoading
      ensures messages == old(messages) + [Message(id, "", "assistant")]
      ensures assistantId == id && accumulator == "" && buffer == "" && placeholder == |old(messages)|
      ensures sessionId == old(sessionId) && newSessions == old(newSessions) && requests == old(requests)
      ensures captured == old(captured) && currentMessage == old(currentMessage)
    {
      assistantId := id;
      accumulator := "";
      buffer := "";
      contents := [];
      placeholder := |messages|;
      FreshReader(messages, id, sessionId, newSessions);
      messages := messages + [Message(id, "", "assistant")];
      phase := Reading;
    }

    /** One chunk from `reader.read()`. */
    method Receive(chunk: string)
      requires Valid() && phase == Reading
      modifies this
      ensures Valid() && phase == Reading && isLoading
      ensures (State(), buffer) == AfterChunk(old(State()), old(buffer), chunk, assistantId, captured, decode)
      ensures assistantId == old(assistantId) && captured == old(captured) && placeholder == old(placeholder)
      ensures requests == old(requests) && currentMessage == old(currentMessage)
    {
      var (lines, rest) := Frame(buffer, chunk);
      buffer := rest;
      ghost var st0 := State();
      var i := 0;
      while i < |lines|
        invariant 0 <= i <= |lines|
        invariant phase == Reading && isLoading && buffer == rest
        invariant assistantId == old(assistantId) && captured == old(captured) && placeholder == old(placeholder)
        invariant requests == old(requests) && currentMessage == old(currentMessage)
        invariant State() == Lines(st0, lines[..i], assistantId, captured, decode)
        invariant ReaderInvariant(State(), placeholder, assistantId)
      {
        assert lines[..i + 1][..i] == lines[..i];
        var stop := HandleLine(lines[i]);
        if stop {
          ghost var closed := Lines(st0, lines[..i + 1], assistantId, captured, decode);
          LinesCompose(st0, lines[..i + 1], lines[i + 1..], assistantId, captured, decode);
          StoppedIgnoresLines(closed, lines[i + 1..], assistantId, captured, decode);
          assert lines[..i + 1] + lines[i + 1..] == lines;
          return;
        }
        i := i + 1;
      }
      assert lines[..i] == lines;
    }

    /** The body of the per-line loop; reports whether the line was `[DONE]`. */
    method HandleLine(line: string) returns (stop: bool)
      requires phase == Reading && ReaderInvariant(State(), placeholder, assistantId)
      modifies this
      ensures var s := Step(old(State()), line, assistantId, captured, decode);
        State() == s.(stopped := false) && stop == s.stopped
      ensures ReaderInvariant(State(), placeholder, assistantId)
      ensures phase == old(phase) && isLoading == old(isLoading) && buffer == old(buffer)
      ensures assistantId == old(assistantId) && captured == old(captured) && placeholder == old(placeholder)
      ensures requests == old(requests) && currentMessage == old(currentMessage)
    {
      StepKeepsInvariant(State(), line, placeholder, assistantId, captured, decode);
      stop := false;
      if IsDataLine(line) {
        var data := Payload(line);
        if data == DONE {
          return true;
        }
        match decode(data)
        case ParseError =>
        case Parsed(content, sid) =>
          ApplyFrame(content, sid);
      }
    }

    /** The state updates for one parsed frame. */
    method ApplyFrame(content: string, sid: string)
      modifies this
      ensures State() == Apply(old(State()), content, sid, assistantId, captured)
      ensures phase == old(phase) && isLoading == old(isLoading) && buffer == old(buffer)
      ensures assistantId == old(assistantId) && captured == old(captured) && placeholder == old(placeholder)
      ensures requests == old(requests) && currentMessage == old(currentMessage)
    {
      if content != "" {
        accumulator := accumulator + content;
        contents := contents + [content];
        messages := WithContent(messages, assistantId, accumulator);
      }
      if sid != "" && !TruthyString(captured) {
        sessionId := Some(sid);
        newSessions := newSessions + [sid];
      }
    }

    /** `reader.read()` reported done: the call ends and loading stops. */
    method ReaderDone()
      requires Valid() && phase == Reading
      modifies this
      ensures Valid() && phase == Idle && !isLoading
      ensures messages == old(messages) && sessionId == old(sessionId) && newSessions == old(newSessions)
      ensures requests == old(requests) && currentMessage == old(currentMessage)
    {
      phase := Idle;
      isLoading := false;
    }

    /**
     * Anything thrown after the request started (a response that is not ok, no body, a failed
     * read) appends exactly one fallback assistant message and stops loading.
     */
    method Fail(errorId: string)
      requires Valid() && phase != Idle
      modifies this
      ensures Valid() && phase == Idle && !isLoading
      ensures messages == old(messages) + [Message(errorId, FALLBACK, "assistant")]
      ensures sessionId == old(sessionId) && newSessions == old(newSessions)
      ensures requests == old(requests) && currentMessage == old(currentMessage)
    {
      messages := messages + [Message(errorId, FALLBACK, "assistant")];
      phase := Idle;
      isLoading := false;
    }
  }
}
