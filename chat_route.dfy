/**
 * POST /api/chat: resolve or create the chat session, save the user's message, send the
 * system prompt and the recent messages upstream, then relay the upstream event stream line by
 * line, accumulating the assistant's reply and saving it once `[DONE]` arrives.
 */
module ChatRoute {
  import opened Wrappers
  import opened Text
  import opened Http
  import opened LineFramer

  // ---------------------------------------------------------------------------
  // Turn setup
  // ---------------------------------------------------------------------------

  datatype ChatSession = ChatSession(id: string, userId: string, title: string)
  datatype ChatMessage = ChatMessage(sessionId: string, content: string, role: string)
  /** A message as the client sends it, and as it goes upstream: role and content only. */
  datatype RoleContent = RoleContent(role: string, content: string)

  /** What the handler does to the store and the network, in order. */
  datatype Effect = SessionCreated(session: ChatSession) | MessageSaved(message: ChatMessage) | UpstreamCalled(messages: seq<RoleContent>)

  const TITLE_LENGTH := 50
  const WINDOW := 10

  /**
   * `message.substring(0, 50) + (message.length > 50 ? '...' : '')`, where `length` and
   * `substring` count UTF-16 code units.
   */
  function Title(message: string): (r: string)
    ensures Utf16Length(message) <= TITLE_LENGTH ==> r == message
    ensures Utf16Length(message) > TITLE_LENGTH ==>
      var p := Utf16Prefix(message, TITLE_LENGTH);
      && r == p + "..." && |p| < |message| && p == message[..|p|]
      && TITLE_LENGTH - 1 <= Utf16Length(p) <= TITLE_LENGTH
  {
    if Utf16Length(message) > TITLE_LENGTH then
      var p := Utf16Prefix(message, TITLE_LENGTH);
      assert |p| < |message| by {
        if |p| == |message| { assert p == message; }
      }
      p + "..."
    else message
  }

  /** A message of Basic Multilingual Plane characters is cut at its 50th character. */
  lemma BmpTitle(message: string)
    requires forall i :: 0 <= i < |message| ==> message[i] as int <= 0xFFFF
    ensures Title(message) == if |message| > TITLE_LENGTH then message[..TITLE_LENGTH] + "..." else message
  {
    BmpUnits(message, TITLE_LENGTH);
  }

  /** 26 emoji are 52 code units: the title keeps 25 of them and adds "...". */
  lemma EmojiTitle()
    ensures Title(seq(26, _ => '\U{1F600}')) == seq(25, _ => '\U{1F600}') + "..."
  {
    var m := seq(26, _ => '\U{1F600}');
    AstralUnits(m, TITLE_LENGTH);
    assert m[..25] == seq(25, _ => '\U{1F600}');
  }

  /** The session with this id owned by this user, if any. */
  function FindSession(sessions: seq<ChatSession>, id: string, userId: string): (r: Option<ChatSession>)
    ensures r.Some? ==> r.value in sessions && r.value.id == id && r.value.userId == userId
    ensures r.None? ==> forall s :: s in sessions ==> !(s.id == id && s.userId == userId)
  {
    if sessions == [] then None
    else if sessions[0].id == id && sessions[0].userId == userId then Some(sessions[0])
    else FindSession(sessions[1..], id, userId)
  }

  /** `messages.slice(-10)` reduced to role and content. */
  function Window(messages: seq<RoleContent>): (r: seq<RoleContent>)
    ensures |r| == if |messages| < WINDOW then |messages| else WINDOW
    ensures forall i :: 0 <= i < |r| ==> r[i] == messages[|messages| - |r| + i]
  {
    if |messages| <= WINDOW then messages else messages[|messages| - WINDOW..]
  }

  /** The result of the setup: the session the turn belongs to, and the upstream messages. */
  datatype Turn = Turn(session: ChatSession, upstream: seq<RoleContent>)

  /**
   * The handler up to the upstream call. `newSessionId` stands for the id the store gives a
   * created session, `systemPrompt` for the prompt text.
   */
  function StartTurn(userId: Option<string>, message: string, sessionId: Option<string>, messages: seq<RoleContent>,
                     sessions: seq<ChatSession>, newSessionId: string, systemPrompt: string)
    : (r: (Response<Turn>, seq<Effect>))
    ensures !TruthyString(userId) ==> r.0 == Error(401, "Unauthorized") && r.1 == []
    ensures TruthyString(userId) ==> r.0.Ok? && r.0.body.upstream == [RoleContent("system", systemPrompt)] + Window(messages)
  {
    if !TruthyString(userId) then (Unauthorized(), [])
    else
      var found := if TruthyString(sessionId) then FindSession(sessions, sessionId.value, userId.value) else None;
      var session := if found.Some? then found.value else ChatSession(newSessionId, userId.value, Title(message));
      var created := if found.Some? then [] else [SessionCreated(session)];
      var upstream := [RoleContent("system", systemPrompt)] + Window(messages);
      (Ok(Turn(session, upstream)),
       created + [MessageSaved(ChatMessage(session.id, message, "user")), UpstreamCalled(upstream)])
  }

  /**
   * A session is reused exactly when the client names one the caller owns; otherwise one is
   * created, titled from the message. Either way the user's message is saved, in that session,
   * before the upstream call, and nothing else happens.
   */
  lemma StartTurnEffects(userId: Option<string>, message: string, sessionId: Option<string>, messages: seq<RoleContent>,
                         sessions: seq<ChatSession>, newSessionId: string, systemPrompt: string)
    requires TruthyString(userId)
    ensures var (resp, effects) := StartTurn(userId, message, sessionId, messages, sessions, newSessionId, systemPrompt);
      var reused := TruthyString(sessionId) && FindSession(sessions, sessionId.value, userId.value).Some?;
      var session := resp.body.session;
      && session.userId == userId.value
      && (reused ==> session.id == sessionId.value && session in sessions
                     && effects == [MessageSaved(ChatMessage(session.id, message, "user")), UpstreamCalled(resp.body.upstream)])
      && (!reused ==> session == ChatSession(newSessionId, userId.value, Title(message))
                      && effects == [SessionCreated(session), MessageSaved(ChatMessage(session.id, message, "user")),
                                     UpstreamCalled(resp.body.upstream)])
  {
  }

  // ---------------------------------------------------------------------------
  // The stream relay
  // ---------------------------------------------------------------------------

  /** `JSON.parse(data).choices?.[0]?.delta?.content || ''`, or the parse throwing. */
  datatype Decoded = Delta(content: string) | Malformed

  /** What the relay writes downstream. */
  datatype OutFrame = DeltaFrame(content: string, sessionId: string) | DoneFrame

  /** The relay's state apart from the line buffer. */
  datatype RelayState = RelayState(accumulator: string, emitted: seq<OutFrame>, persisted: seq<string>, closed: bool)

  const START := RelayState("", [], [], false)

  /** The handling of one complete line. */
  function Step(st: RelayState, line: string, sessionId: string, decode: string -> Decoded): RelayState {
    if st.closed || !IsDataLine(line) then st
    else
      var data := Payload(line);
      if data == DONE then
        var reply := Trim(st.accumulator);
        st.(persisted := st.persisted + (if reply != "" then [reply] else []),
            emitted := st.emitted + [DoneFrame], closed := true)
      else
        match decode(data)
        case Malformed => st
        case Delta(content) =>
          if content == "" then st
          else st.(accumulator := st.accumulator + content, emitted := st.emitted + [DeltaFrame(content, sessionId)])
  }

  /** The handling of a run of complete lines, in order. */
  function Lines(st: RelayState, lines: seq<string>, sessionId: string, decode: string -> Decoded): RelayState {
    if lines == [] then st
    else Step(Lines(st, lines[..|lines| - 1], sessionId, decode), lines[|lines| - 1], sessionId, decode)
  }

  lemma {:induction false} LinesCompose(st: RelayState, a: seq<string>, b: seq<string>, sessionId: string, decode: string -> Decoded)
    ensures Lines(st, a + b, sessionId, decode) == Lines(Lines(st, a, sessionId, decode), b, sessionId, decode)
    decreases |b|
  {
    if b == [] {
      assert a + b == a;
    } else {
      assert (a + b)[..|a + b| - 1] == a + b[..|b| - 1];
      LinesCompose(st, a, b[..|b| - 1], sessionId, decode);
    }
  }

  /** Once closed, the relay ignores every later line. */
  lemma {:induction false} ClosedIgnoresLines(st: RelayState, lines: seq<string>, sessionId: string, decode: string -> Decoded)
    requires st.closed
    ensures Lines(st, lines, sessionId, decode) == st
  {
    if lines != [] {
      ClosedIgnoresLines(st, lines[..|lines| - 1], sessionId, decode);
    }
  }

  /** The contents of the delta frames, in order. */
  function Deltas(frames: seq<OutFrame>): seq<string> {
    if frames == [] then []
    else Deltas(frames[..|frames| - 1]) + (if frames[|frames| - 1].DeltaFrame? then [frames[|frames| - 1].content] else [])
  }

  /** The emitted frames: non-empty deltas for this session, then the done frame once closed. */
  predicate FramesInvariant(emitted: seq<OutFrame>, closed: bool, sessionId: string) {
    && (forall i :: 0 <= i < |emitted| && emitted[i].DeltaFrame? ==>
          emitted[i].content != "" && emitted[i].sessionId == sessionId)
    && (forall i :: 0 <= i < |emitted| && emitted[i].DoneFrame? ==> i == |emitted| - 1 && closed)
    && (closed ==> |emitted| > 0 && emitted[|emitted| - 1].DoneFrame?)
  }

  /** At most one reply is saved, only once closed, and it is the non-empty trimmed accumulator. */
  predicate ReplyInvariant(persisted: seq<string>, reply: string, closed: bool) {
    && |persisted| <= 1
    && (|persisted| == 1 ==> closed && persisted[0] == reply && reply != "")
    && (closed && reply != "" ==> |persisted| == 1)
  }

  /**
   * What the relay keeps true: the accumulator is the concatenation of the emitted deltas, the
   * frames are well formed, and the saved reply follows the rule above.
   */
  predicate RelayInvariant(st: RelayState, sessionId: string) {
    && st.accumulator == Concat(Deltas(st.emitted))
    && FramesInvariant(st.emitted, st.closed, sessionId)
    && ReplyInvariant(st.persisted, Trim(st.accumulator), st.closed)
  }

  lemma StartInvariant(sessionId: string)
    ensures RelayInvariant(START, sessionId)
  {
    assert Deltas([]) == [];
  }

  lemma DeltasAppend(frames: seq<OutFrame>, f: OutFrame)
    ensures Deltas(frames + [f]) == Deltas(frames) + (if f.DeltaFrame? then [f.content] else [])
  {
    assert (frames + [f])[..|frames|] == frames;
  }

  lemma DoneKeepsInvariant(st: RelayState, sessionId: string)
    requires RelayInvariant(st, sessionId) && !st.closed
    ensures var reply := Trim(st.accumulator);
      RelayInvariant(st.(persisted := st.persisted + (if reply != "" then [reply] else []),
                         emitted := st.emitted + [DoneFrame], closed := true), sessionId)
  {
    DeltasAppend(st.emitted, DoneFrame);
    assert Deltas(st.emitted) + [] == Deltas(st.emitted);
    DoneFrames(st.emitted, sessionId);
    DoneReply(st.persisted, Trim(st.accumulator));
  }

  lemma DoneFrames(emitted: seq<OutFrame>, sessionId: string)
    requires FramesInvariant(emitted, false, sessionId)
    ensures FramesInvariant(emitted + [DoneFrame], true, sessionId)
  {
  }

  lemma DoneReply(persisted: seq<string>, reply: string)
    requires ReplyInvariant(persisted, reply, false)
    ensures ReplyInvariant(persisted + (if reply != "" then [reply] else []), reply, true)
  {
  }

  lemma DeltaFrames(emitted: seq<OutFrame>, content: string, sessionId: string)
    requires FramesInvariant(emitted, false, sessionId) && content != ""
    ensures FramesInvariant(emitted + [DeltaFrame(content, sessionId)], false, sessionId)
  {
  }

  lemma DeltaKeepsInvariant(st: RelayState, content: string, sessionId: string)
    requires RelayInvariant(st, sessionId) && !st.closed && content != ""
    ensures RelayInvariant(st.(accumulator := st.accumulator + content,
                               emitted := st.emitted + [DeltaFrame(content, sessionId)]), sessionId)
  {
    DeltasAppend(st.emitted, DeltaFrame(content, sessionId));
    ConcatAppend(Deltas(st.emitted), [content]);
    assert Concat([content]) == Concat([]) + content;
    DeltaFrames(st.emitted, content, sessionId);
  }

  lemma StepKeepsInvariant(st: RelayState, line: string, sessionId: string, decode: string -> Decoded)
    requires RelayInvariant(st, sessionId)
    ensures RelayInvariant(Step(st, line, sessionId, decode), sessionId)
  {
    if !st.closed && IsDataLine(line) {
      var data := Payload(line);
      if data == DONE {
        DoneKeepsInvariant(st, sessionId);
      } else if decode(data).Delta? && decode(data).content != "" {
        DeltaKeepsInvariant(st, decode(data).content, sessionId);
      }
    }
  }

  lemma {:induction false} LinesKeepInvariant(st: RelayState, lines: seq<string>, sessionId: string, decode: string -> Decoded)
    requires RelayInvariant(st, sessionId)
    ensures RelayInvariant(Lines(st, lines, sessionId, decode), sessionId)
  {
    if lines != [] {
      LinesKeepInvariant(st, lines[..|lines| - 1], sessionId, decode);
      StepKeepsInvariant(Lines(st, lines[..|lines| - 1], sessionId, decode), lines[|lines| - 1], sessionId, decode);
    }
  }

  /** The relay only ever adds frames and replies: what was emitted or saved stays. */
  lemma {:induction false} LinesExtend(st: RelayState, lines: seq<string>, sessionId: string, decode: string -> Decoded)
    ensures var r := Lines(st, lines, sessionId, decode);
      && |st.emitted| <= |r.emitted| && r.emitted[..|st.emitted|] == st.emitted
      && |st.persisted| <= |r.persisted| && r.persisted[..|st.persisted|] == st.persisted
      && (st.closed ==> r.closed)
  {
    if lines != [] {
      var p := Lines(st, lines[..|lines| - 1], sessionId, decode);
      LinesExtend(st, lines[..|lines| - 1], sessionId, decode);
      var r := Step(p, lines[|lines| - 1], sessionId, decode);
      assert r.emitted[..|p.emitted|] == p.emitted;
      assert r.persisted[..|p.persisted|] == p.persisted;
      assert r.emitted[..|st.emitted|] == p.emitted[..|st.emitted|];
      assert r.persisted[..|st.persisted|] == p.persisted[..|st.persisted|];
    }
  }

  predicate HasDoneLine(lines: seq<string>) {
    exists i :: 0 <= i < |lines| && IsDataLine(lines[i]) && Payload(lines[i]) == DONE
  }

  /** Without a `[DONE]` line the relay stays open and saves nothing. */
  lemma {:induction false} NoDoneNoReply(st: RelayState, lines: seq<string>, sessionId: string, decode: string -> Decoded)
    requires !HasDoneLine(lines)
    ensures var r := Lines(st, lines, sessionId, decode);
      r.persisted == st.persisted && r.closed == st.closed
  {
    if lines != [] {
      var p := lines[..|lines| - 1];
      NoDoneNoReply(st, p, sessionId, decode);
    }
  }

  /** The state after receiving one chunk, with the new line buffer. */
  function AfterChunk(st: RelayState, buffer: string, chunk: string, sessionId: string, decode: string -> Decoded): (RelayState, string) {
    var (lines, rest) := Frame(buffer, chunk);
    (Lines(st, lines, sessionId, decode), rest)
  }

  /** Receiving `c1` then `c2` does exactly what receiving `c1 + c2` does. */
  lemma ReceiveChunkBoundary(st: RelayState, buffer: string, c1: string, c2: string, sessionId: string, decode: string -> Decoded)
    ensures var (st1, b1) := AfterChunk(st, buffer, c1, sessionId, decode);
      AfterChunk(st1, b1, c2, sessionId, decode) == AfterChunk(st, buffer, c1 + c2, sessionId, decode)
  {
    var (l1, r1) := Frame(buffer, c1);
    var (l2, r2) := Frame(r1, c2);
    ChunkBoundaryIrrelevant(buffer, c1, c2);
    LinesCompose(st, l1, l2, sessionId, decode);
  }

  lemma LinesOfThree(st: RelayState, a: string, b: string, c: string, sessionId: string, decode: string -> Decoded)
    ensures Lines(st, [a, b, c], sessionId, decode)
         == Step(Step(Step(st, a, sessionId, decode), b, sessionId, decode), c, sessionId, decode)
  {
    assert Lines(st, [a], sessionId, decode) == Step(st, a, sessionId, decode) by {
      assert [a][..0] == [];
    }
    assert Lines(st, [a, b], sessionId, decode) == Step(Lines(st, [a], sessionId, decode), b, sessionId, decode) by {
      assert [a, b][..1] == [a];
    }
    assert Lines(st, [a, b, c], sessionId, decode) == Step(Lines(st, [a, b], sessionId, decode), c, sessionId, decode) by {
      assert [a, b, c][..2] == [a, b];
    }
  }

  lemma StepOnDelta(st: RelayState, text: string, content: string, sessionId: string, decode: string -> Decoded)
    requires !st.closed && text != DONE && decode(text) == Delta(content) && content != ""
    requires text != [] && !IsWhitespace(text[0]) && !IsWhitespace(text[|text| - 1])
    ensures Step(st, DATA_PREFIX + text, sessionId, decode)
         == st.(accumulator := st.accumulator + content, emitted := st.emitted + [DeltaFrame(content, sessionId)])
  {
    PayloadOf(text);
  }

  lemma StepOnDone(st: RelayState, sessionId: string, decode: string -> Decoded)
    requires !st.closed
    ensures var reply := Trim(st.accumulator);
      Step(st, DATA_PREFIX + DONE, sessionId, decode)
      == st.(persisted := st.persisted + (if reply != "" then [reply] else []), emitted := st.emitted + [DoneFrame], closed := true)
  {
    PayloadOf(DONE);
  }

  lemma HiThereDeltas(decode: string -> Decoded)
    requires decode("A") == Delta("Hi") && decode("B") == Delta(" there")
    ensures Step(Step(START, DATA_PREFIX + "A", "s1", decode), DATA_PREFIX + "B", "s1", decode)
         == RelayState("Hi there", [DeltaFrame("Hi", "s1"), DeltaFrame(" there", "s1")], [], false)
  {
    StepOnDelta(START, "A", "Hi", "s1", decode);
    var s1 := RelayState("Hi", [DeltaFrame("Hi", "s1")], [], false);
    assert "" + "Hi" == "Hi" && [] + [DeltaFrame("Hi", "s1")] == [DeltaFrame("Hi", "s1")];
    assert Step(START, DATA_PREFIX + "A", "s1", decode) == s1;
    StepOnDelta(s1, "B", " there", "s1", decode);
    assert "Hi" + " there" == "Hi there";
  }

  /** The upstream reply "Hi" + " there" followed by `[DONE]` saves "Hi there" and emits three frames. */
  lemma HiThereExample(decode: string -> Decoded)
    requires decode("A") == Delta("Hi") && decode("B") == Delta(" there")
    ensures var r := Lines(START, [DATA_PREFIX + "A", DATA_PREFIX + "B", DATA_PREFIX + DONE], "s1", decode);
      r.persisted == ["Hi there"] && r.emitted == [DeltaFrame("Hi", "s1"), DeltaFrame(" there", "s1"), DoneFrame] && r.closed
  {
    LinesOfThree(START, DATA_PREFIX + "A", DATA_PREFIX + "B", DATA_PREFIX + DONE, "s1", decode);
    HiThereDeltas(decode);
    var s2 := RelayState("Hi there", [DeltaFrame("Hi", "s1"), DeltaFrame(" there", "s1")], [], false);
    StepOnDone(s2, "s1", decode);
    TrimKeepsText("Hi there");
    assert [] + ["Hi there"] == ["Hi there"];
    assert s2.emitted + [DoneFrame] == [DeltaFrame("Hi", "s1"), DeltaFrame(" there", "s1"), DoneFrame];
  }

  lemma PayloadOf(text: string)
    requires text != [] && !IsWhitespace(text[0]) && !IsWhitespace(text[|text| - 1])
    ensures IsDataLine(DATA_PREFIX + text) && Payload(DATA_PREFIX + text) == text
  {
    assert (DATA_PREFIX + text)[..|DATA_PREFIX|] == DATA_PREFIX;
    assert (DATA_PREFIX + text)[|DATA_PREFIX|..] == text;
    TrimKeepsText(text);
  }

  lemma TrimKeepsText(text: string)
    requires text != [] && !IsWhitespace(text[0]) && !IsWhitespace(text[|text| - 1])
    ensures Trim(text) == text
  {
  }

  // ---------------------------------------------------------------------------
  // The relay as the stream's `start` runs it
  // ---------------------------------------------------------------------------

  datatype Status = Streaming | Closed | Ended | Failed

  class ChatRelay {
    var buffer: string
    var accumulator: string
    var emitted: seq<OutFrame>
    var persisted: seq<string>
    var status: Status
    const sessionId: string
    const decode: string -> Decoded

    function State(): RelayState
      reads this
    {
      RelayState(accumulator, emitted, persisted, status == Closed)
    }

    ghost predicate Valid()
      reads this
    {
      RelayInvariant(State(), sessionId) && '\n' !in buffer
    }

    constructor (sessionId: string, decode: string -> Decoded)
      ensures Valid() && State() == START && buffer == "" && status == Streaming
      ensures this.sessionId == sessionId && this.decode == decode
    {
      buffer := "";
      accumulator := "";
      emitted := [];
      persisted := [];
      status := Streaming;
      this.sessionId := sessionId;
      this.decode := decode;
      new;
      StartInvariant(sessionId);
    }

    /** One `reader.read()` that returned a decoded chunk. */
    method Receive(chunk: string)
      requires Valid() && status == Streaming
      modifies this
      ensures Valid()
      ensures (State(), buffer) == AfterChunk(old(State()), old(buffer), chunk, sessionId, decode)
      ensures status == Closed || status == Streaming
    {
      var (lines, rest) := Frame(buffer, chunk);
      buffer := rest;
      ghost var st0 := State();
      var i := 0;
      while i < |lines|
        invariant 0 <= i <= |lines|
        invariant status == Streaming && buffer == rest
        invariant State() == Lines(st0, lines[..i], sessionId, decode)
        invariant RelayInvariant(State(), sessionId)
      {
        assert lines[..i + 1][..i] == lines[..i];
        var closed := HandleLine(lines[i]);
        if closed {
          RestIgnored(st0, lines, i + 1, State());
          return;
        }
        i := i + 1;
      }
      assert lines[..i] == lines;
    }

    /** The body of the per-line loop; reports whether the line closed the stream. */
    method HandleLine(line: string) returns (closed: bool)
      requires status == Streaming && RelayInvariant(State(), sessionId)
      modifies this
      ensures State() == Step(old(State()), line, sessionId, decode)
      ensures RelayInvariant(State(), sessionId)
      ensures closed == (status == Closed) && (closed || status == Streaming)
      ensures buffer == old(buffer)
    {
      StepKeepsInvariant(State(), line, sessionId, decode);
      closed := false;
      if IsDataLine(line) {
        var data := Payload(line);
        if data == DONE {
          var reply := Trim(accumulator);
          if reply != "" {
            persisted := persisted + [reply];
          }
          emitted := emitted + [DoneFrame];
          status := Closed;
          closed := true;
          return;
        }
        match decode(data)
        case Malformed =>
        case Delta(content) =>
          if content != "" {
            accumulator := accumulator + content;
            emitted := emitted + [DeltaFrame(content, sessionId)];
          }
      }
    }

    /** After the relay closes at line `k`, the lines after it change nothing. */
    lemma RestIgnored(st0: RelayState, lines: seq<string>, k: nat, closedState: RelayState)
      requires k <= |lines| && closedState.closed
      requires closedState == Lines(st0, lines[..k], sessionId, decode)
      ensures Lines(st0, lines, sessionId, decode) == closedState
    {
      LinesCompose(st0, lines[..k], lines[k..], sessionId, decode);
      ClosedIgnoresLines(closedState, lines[k..], sessionId, decode);
      assert lines[..k] + lines[k..] == lines;
    }

    /** `reader.read()` reported done before any `[DONE]` line. */
    method EndOfStream()
      requires Valid() && status == Streaming
      modifies this
      ensures status == Ended
      ensures persisted == old(persisted) && emitted == old(emitted) && accumulator == old(accumulator)
    {
      status := Ended;
    }

    /** The read failed; the controller is errored. */
    method Fail()
      requires Valid() && status == Streaming
      modifies this
      ensures status == Failed
      ensures persisted == old(persisted) && emitted == old(emitted) && accumulator == old(accumulator)
    {
      status := Failed;
    }
  }
}
