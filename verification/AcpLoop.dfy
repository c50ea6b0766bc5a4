/** The agent protocol loop over standard input, its session table and its bridge to the
    conversation server (server/cmd/agentcore-runner/main.go). */
module AcpLoop {
  import opened Text
  import opened Sorting
  import opened Wrappers

  datatype Answer<+T> = Ok(value: T) | Err(reason: string)

  datatype Session = Session(id: string, remoteId: string, lastStreamId: string, lastPrompt: string,
                             cancelled: bool, lastResponse: string)

  type Sessions = map<string, Session>

  /** A decoded message. A text field that is missing or not a string is empty; `prompt` lists the
      `text` fields of the prompt items. */
  datatype Message = Message(verb: string, hasId: bool, id: string, sessionId: string, prompt: seq<string>)

  datatype Failure =
    | MissingSession
    | Unsupported(verb: string)
    | Bridge(reason: string)
    | BadLine
    | Input(reason: string)

  datatype Body = Initialized | Authenticated | SessionIs(session: string) | Completed | Cancelled

  /** Everything the loop does to the outside: responses and updates written, and calls made to the
      conversation server. */
  datatype Event =
    | Answered(id: string, body: Body)
    | Failed(id: string, failure: Failure)
    | Update(session: string, text: string)
    | Create(session: string, made: Option<string>)
    | Stream(session: string, conversation: string, prompt: string)
    | CancelStream(session: string, conversation: string, stream: string)

  datatype StreamEvent = StreamEvent(streamId: string, delta: string, done: bool)

  /** What the conversation server answers: to a request for a new conversation, and to a prompt. */
  datatype CreateReply = NotCreated(reason: string) | CreatedAs(id: string)
  datatype StreamReply = Refused(reason: string) | Lines(lines: seq<string>, broken: Option<string>)
  datatype Env = Env(newId: string, create: CreateReply, stream: StreamReply)

  /** Whether a bridge is configured, the two JSON decoders, and the outside for every input line. */
  datatype Config = Config(bridge: bool, parse: string -> Option<Message>, decode: string -> Option<StreamEvent>,
                           env: nat -> Env)

  // ---------------------------------------------------------------------------------------
  // Text
  // ---------------------------------------------------------------------------------------

  function Concat(parts: seq<string>): string {
    if parts == [] then "" else Concat(parts[..|parts| - 1]) + parts[|parts| - 1]
  }

  /** The non-blank items, trimmed, one a line. */
  function PromptText(items: seq<string>): string {
    if items == [] then ""
    else
      var before, text := PromptText(items[..|items| - 1]), Trim(items[|items| - 1]);
      if text == "" then before else if before == "" then text else before + "\n" + text
  }

  /** The last trim of the prompt has nothing left to remove. */
  lemma {:induction false} PromptTextTrimmed(items: seq<string>)
    ensures NoBlankEnds(PromptText(items)) && Trim(PromptText(items)) == PromptText(items)
  {
    hide Trim, IsSpace;
    if items != [] {
      PromptTextTrimmed(items[..|items| - 1]);
      TrimShape(items[|items| - 1]);
    }
    TrimPlain(PromptText(items));
  }

  method ExtractACPPrompt(items: seq<string>) returns (text: string)
    ensures text == PromptText(items)
  {
    hide Trim;
    var joined := "";
    for i := 0 to |items|
      invariant joined == PromptText(items[..i])
    {
      assert items[..i + 1][..i] == items[..i];
      var part := Trim(items[i]);
      if part != "" {
        joined := if joined == "" then part else joined + "\n" + part;
      }
    }
    assert items[..|items|] == items;
    PromptTextTrimmed(items);
    return Trim(joined);
  }

  // ---------------------------------------------------------------------------------------
  // Server-sent events
  // ---------------------------------------------------------------------------------------

  datatype Datum = Skipped | DoneMark | Data(event: StreamEvent)

  function ReadLine(cfg: Config, raw: string): Datum {
    var line := Trim(raw);
    if |line| < 5 || Lower(line[..5]) != "data:" then Skipped
    else
      var data := Trim(line[5..]);
      if data == "" then Skipped
      else if data == "[DONE]" then DoneMark
      else match cfg.decode(data) case None => Skipped case Some(event) => Data(event)
  }

  /** The non-empty deltas, in order. */
  function Deltas(cfg: Config, lines: seq<string>): seq<string> {
    if lines == [] then []
    else
      var before, last := Deltas(cfg, lines[..|lines| - 1]), ReadLine(cfg, lines[|lines| - 1]);
      if last.Data? && last.event.delta != "" then before + [last.event.delta] else before
  }

  /** The last non-blank stream id. */
  function StreamIdIn(cfg: Config, lines: seq<string>): string {
    if lines == [] then ""
    else
      var last := ReadLine(cfg, lines[|lines| - 1]);
      if last.Data? && Trim(last.event.streamId) != "" then Trim(last.event.streamId)
      else StreamIdIn(cfg, lines[..|lines| - 1])
  }

  predicate Ends(cfg: Config, line: string) {
    ReadLine(cfg, line).DoneMark? || (ReadLine(cfg, line).Data? && ReadLine(cfg, line).event.done)
  }

  predicate DoneIn(cfg: Config, lines: seq<string>) {
    exists i :: 0 <= i < |lines| && Ends(cfg, lines[i])
  }

  function Forwarded(cfg: Config, reply: StreamReply): seq<string> {
    if reply.Refused? then [] else Deltas(cfg, reply.lines)
  }

  const NO_DATA: string := "blue stream returned no response data"
  const NO_ID: string := "blue create conversation did not return id"

  /** The text and the stream id, or why there is none. */
  function StreamResult(cfg: Config, reply: StreamReply): Answer<(string, string)> {
    match reply
    case Refused(reason) => Err(reason)
    case Lines(lines, broken) =>
      if broken.Some? then Err(broken.value)
      else
        var text := Trim(Concat(Deltas(cfg, lines)));
        if text == "" && !DoneIn(cfg, lines) then Err(NO_DATA) else Ok((text, StreamIdIn(cfg, lines)))
  }

  // ---------------------------------------------------------------------------------------
  // One message
  // ---------------------------------------------------------------------------------------

  function SessionOr(ss: Sessions, id: string): Session {
    if id in ss then ss[id] else Session(id, "", "", "", false, "")
  }

  function Mutate(ss: Sessions, id: string, change: Session -> Session): Sessions {
    ss[id := change(SessionOr(ss, id))]
  }

  function Touched(ss: Sessions, id: string): Sessions {
    Mutate(ss, id, s => s)
  }

  function Updates(session: string, texts: seq<string>): seq<Event> {
    seq(|texts|, i requires 0 <= i < |texts| => Update(session, texts[i]))
  }

  predicate Known(ss: Sessions, session: string) {
    session in ss && Trim(ss[session].remoteId) != ""
  }

  datatype Ensured = Ensured(sessions: Sessions, events: seq<Event>, conversation: Answer<string>)

  function Ensure(ss: Sessions, session: string, create: CreateReply): Ensured {
    if Known(ss, session) then Ensured(ss, [], Ok(Trim(ss[session].remoteId)))
    else
      match create
      case NotCreated(reason) => Ensured(ss, [Create(session, None)], Err(reason))
      case CreatedAs(id) =>
        var made := Trim(id);
        if made == "" then Ensured(ss, [Create(session, None)], Err(NO_ID))
        else Ensured(Mutate(ss, session, (s: Session) => s.(remoteId := made)), [Create(session, Some(made))], Ok(made))
  }

  datatype Prompted = Prompted(sessions: Sessions, events: seq<Event>, result: Answer<(string, string)>)

  function Prompt(ss: Sessions, cfg: Config, session: string, prompt: string, env: Env): Prompted {
    var e := Ensure(ss, session, env.create);
    match e.conversation
    case Err(reason) => Prompted(e.sessions, e.events, Err(reason))
    case Ok(conversation) =>
      Prompted(e.sessions, e.events + [Stream(session, conversation, prompt)]
          + Updates(session, Forwarded(cfg, env.stream)),
               StreamResult(cfg, env.stream))
  }

  function CancelCalls(cfg: Config, ss: Sessions, session: string): seq<Event> {
    if cfg.bridge && Known(ss, session) && Trim(ss[session].lastStreamId) != ""
    then [CancelStream(session, ss[session].remoteId, Trim(ss[session].lastStreamId))] else []
  }

  datatype Handled = Handled(sessions: Sessions, events: seq<Event>, stop: Option<Failure>)

  function Replied(ss: Sessions, events: seq<Event>, m: Message, body: Body): Handled {
    Handled(ss, events + if m.hasId then [Answered(m.id, body)] else [], None)
  }

  function Refusal(ss: Sessions, events: seq<Event>, m: Message, failure: Failure): Handled {
    if m.hasId then Handled(ss, events + [Failed(m.id, failure)], None) else Handled(ss, events, Some(failure))
  }

  function Finished(prompt: string, response: string, stream: string): Session -> Session {
    (s: Session) => s.(lastPrompt := prompt, lastResponse := response, lastStreamId := stream, cancelled := false)
  }

  const RECEIVED: string := "agentcore-runner received: "

  function HandlePrompt(ss: Sessions, cfg: Config, m: Message, session: string, env: Env): Handled {
    var prompt := PromptText(m.prompt);
    if cfg.bridge then
      var p := Prompt(ss, cfg, session, prompt, env);
      match p.result
      case Err(reason) => Refusal(p.sessions, p.events, m, Bridge(reason))
      case Ok((text, stream)) =>
        Replied(Mutate(p.sessions, session, Finished(prompt, text, stream)), p.events, m, Completed)
    else
      var response := RECEIVED + prompt;
      Replied(Mutate(ss, session, Finished(prompt, response, "")), [Update(session, response)], m, Completed)
  }

  function Handle(ss: Sessions, cfg: Config, m: Message, env: Env): Handled {
    var verb, session := Trim(m.verb), Trim(m.sessionId);
    if verb == "initialize" then Replied(ss, [], m, Initialized)
    else if verb == "authenticate" then Replied(ss, [], m, Authenticated)
    else if verb == "session/new" then Replied(Touched(ss, env.newId), [], m, SessionIs(env.newId))
    else if verb == "session/load" then
      if session == "" then Refusal(ss, [], m, MissingSession)
      else Replied(Touched(ss, session), [], m, SessionIs(session))
    else if verb == "session/prompt" then
      if session == "" then Refusal(ss, [], m, MissingSession) else HandlePrompt(ss, cfg, m, session, env)
    else if verb == "session/cancel" then
      if session == "" then Handled(ss, [], None)
      else
        var cancelled := Mutate(ss, session, (s: Session) => s.(cancelled := true));
        Replied(cancelled, CancelCalls(cfg, ss, session), m, Cancelled)
    else Refusal(ss, [], m, Unsupported(verb))
  }

  /** One input line: blank ones are skipped, an undecodable one ends the loop. */
  function Take(ss: Sessions, cfg: Config, raw: string, env: Env): Handled {
    if Trim(raw) == "" then Handled(ss, [], None)
    else match cfg.parse(Trim(raw)) case None => Handled(ss, [], Some(BadLine)) case Some(m) => Handle(ss, cfg, m, env)
  }

  /** The whole loop, ending at the first line that stops it. */
  function Run(ss: Sessions, cfg: Config, lines: seq<string>): Handled {
    if lines == [] then Handled(ss, [], None)
    else
      var before := Run(ss, cfg, lines[..|lines| - 1]);
      if before.stop.Some? then before
      else
        var h := Take(before.sessions, cfg, lines[|lines| - 1], cfg.env(|lines| - 1));
        Handled(h.sessions, before.events + h.events, h.stop)
  }

  lemma RunNothing(ss: Sessions, cfg: Config)
    ensures Run(ss, cfg, []) == Handled(ss, [], None)
  {
  }

  lemma RunStep(ss: Sessions, cfg: Config, lines: seq<string>, i: nat)
    requires i < |lines| && Run(ss, cfg, lines[..i]).stop.None?
    ensures var before := Run(ss, cfg, lines[..i]);
            var h := Take(before.sessions, cfg, lines[i], cfg.env(i));
            Run(ss, cfg, lines[..i + 1]) == Handled(h.sessions, before.events + h.events, h.stop)
  {
    hide Take;
    assert lines[..i + 1][..i] == lines[..i];
  }

  lemma {:induction false} StopStays(ss: Sessions, cfg: Config, lines: seq<string>, i: nat)
    requires i <= |lines| && Run(ss, cfg, lines[..i]).stop.Some?
    ensures Run(ss, cfg, lines) == Run(ss, cfg, lines[..i])
  {
    hide Take;
    if i == |lines| {
      assert lines[..i] == lines;
    } else {
      assert lines[..|lines| - 1][..i] == lines[..i];
      StopStays(ss, cfg, lines[..|lines| - 1], i);
    }
  }

  // ---------------------------------------------------------------------------------------
  // The program
  // ---------------------------------------------------------------------------------------

  class Runner {
    const cfg: Config
    var sessions: Sessions
    /** What was written and called so far. */
    var trace: seq<Event>

    constructor (cfg: Config)
      ensures this.cfg == cfg && sessions == map[] && trace == []
    {
      this.cfg := cfg;
      sessions := map[];
      trace := [];
    }

    method MutateSession(id: string, change: Session -> Session)
      modifies this`sessions
      ensures sessions == Mutate(old(sessions), id, change)
    {
      if id in sessions {
        sessions := sessions[id := change(sessions[id])];
        return;
      }
      var session := Session(id, "", "", "", false, "");
      session := change(session);
      sessions := sessions[id := session];
    }

    method EnsureConversation(session: string, create: CreateReply) returns (conversation: Answer<string>)
      modifies this
      ensures var e := Ensure(old(sessions), session, create);
              sessions == e.sessions && trace == old(trace) + e.events && conversation == e.conversation
    {
      hide Trim;
      if session in sessions && Trim(sessions[session].remoteId) != "" {
        return Ok(Trim(sessions[session].remoteId));
      }
      if create.NotCreated? {
        trace := trace + [Create(session, None)];
        return Err(create.reason);
      }
      var made := Trim(create.id);
      if made == "" {
        trace := trace + [Create(session, None)];
        return Err(NO_ID);
      }
      trace := trace + [Create(session, Some(made))];
      MutateSession(session, (s: Session) => s.(remoteId := made));
      return Ok(made);
    }

    method StreamPrompt(session: string, conversation: string, prompt: string, reply: StreamReply)
      returns (result: Answer<(string, string)>)
      modifies this`trace
      ensures trace == old(trace) + [Stream(session, conversation, prompt)] + Updates(session, Forwarded(cfg, reply))
      ensures result == StreamResult(cfg, reply)
    {
      hide Trim, ReadLine, Deltas, StreamIdIn, DoneIn, Updates, Concat;
      NothingStreamed(cfg, session);
      trace := trace + [Stream(session, conversation, prompt)];
      if reply.Refused? {
        return Err(reply.reason);
      }
      var lines := reply.lines;
      var builder, streamId, doneSeen := "", "", false;
      for i := 0 to |lines|
        invariant trace == old(trace) + [Stream(session, conversation, prompt)]
                  + Updates(session, Deltas(cfg, lines[..i]))
        invariant builder == Concat(Deltas(cfg, lines[..i]))
        invariant streamId == StreamIdIn(cfg, lines[..i])
        invariant doneSeen == DoneIn(cfg, lines[..i])
      {
        StreamStep(cfg, lines, i);
        DoneInStep(cfg, lines, i);
        var data := ReadLine(cfg, lines[i]);
        if data.Skipped? {
          continue;
        }
        if data.DoneMark? {
          doneSeen := true;
          continue;
        }
        var event := data.event;
        if Trim(event.streamId) != "" {
          streamId := Trim(event.streamId);
        }
        if event.delta != "" {
          UpdatesAppend(session, Deltas(cfg, lines[..i]), event.delta);
          builder := builder + event.delta;
          trace := trace + [Update(session, event.delta)];
        }
        if event.done {
          doneSeen := true;
        }
      }
      assert lines[..|lines|] == lines;
      if reply.broken.Some? {
        return Err(reply.broken.value);
      }
      var text := Trim(builder);
      if text == "" && !doneSeen {
        return Err(NO_DATA);
      }
      return Ok((text, streamId));
    }

    method RunPrompt(session: string, prompt: string, env: Env) returns (result: Answer<(string, string)>)
      modifies this
      ensures var p := Prompt(old(sessions), cfg, session, prompt, env);
              sessions == p.sessions && trace == old(trace) + p.events && result == p.result
    {
      hide Ensure, StreamResult, Updates, Forwarded;
      var conversation := EnsureConversation(session, env.create);
      if conversation.Err? {
        return Err(conversation.reason);
      }
      result := StreamPrompt(session, conversation.value, prompt, env.stream);
    }

    method CancelRemote(session: string)
      requires cfg.bridge
      modifies this`trace
      ensures trace == old(trace) + CancelCalls(cfg, sessions, session)
    {
      hide Trim;
      if session in sessions {
        var s := sessions[session];
        if Trim(s.remoteId) == "" || Trim(s.lastStreamId) == "" {
          return;
        }
        trace := trace + [CancelStream(session, s.remoteId, Trim(s.lastStreamId))];
      }
    }

    method WriteResult(m: Message, body: Body)
      modifies this`trace
      ensures trace == old(trace) + if m.hasId then [Answered(m.id, body)] else []
    {
      if m.hasId {
        trace := trace + [Answered(m.id, body)];
      }
    }

    method WriteError(m: Message, failure: Failure) returns (err: Option<Failure>)
      modifies this`trace
      ensures var r := Refusal(sessions, [], m, failure); trace == old(trace) + r.events && err == r.stop
    {
      if !m.hasId {
        return Some(failure);
      }
      trace := trace + [Failed(m.id, failure)];
      return None;
    }

    method HandlePromptMessage(m: Message, session: string, env: Env) returns (err: Option<Failure>)
      modifies this
      ensures var h := HandlePrompt(old(sessions), cfg, m, session, env);
              sessions == h.sessions && trace == old(trace) + h.events && err == h.stop
    {
      hide Prompt, PromptText, Mutate, Finished;
      var prompt := ExtractACPPrompt(m.prompt);
      var response, stream := RECEIVED + prompt, "";
      if cfg.bridge {
        var result := RunPrompt(session, prompt, env);
        if result.Err? {
          err := WriteError(m, Bridge(result.reason));
          return;
        }
        response, stream := result.value.0, result.value.1;
      } else {
        trace := trace + [Update(session, response)];
      }
      MutateSession(session, Finished(prompt, response, stream));
      WriteResult(m, Completed);
      return None;
    }

    method HandleACPMessage(m: Message, env: Env) returns (err: Option<Failure>)
      modifies this
      ensures var h := Handle(old(sessions), cfg, m, env);
              sessions == h.sessions && trace == old(trace) + h.events && err == h.stop
    {
      hide HandlePrompt, Mutate, Known, Trim;
      var verb, session := Trim(m.verb), Trim(m.sessionId);
      if verb == "initialize" {
        WriteResult(m, Initialized);
      } else if verb == "authenticate" {
        WriteResult(m, Authenticated);
      } else if verb == "session/new" {
        MutateSession(env.newId, s => s);
        WriteResult(m, SessionIs(env.newId));
      } else if verb == "session/load" {
        if session == "" {
          err := WriteError(m, MissingSession);
          return;
        }
        MutateSession(session, s => s);
        WriteResult(m, SessionIs(session));
      } else if verb == "session/prompt" {
        if session == "" {
          err := WriteError(m, MissingSession);
          return;
        }
        err := HandlePromptMessage(m, session, env);
        return;
      } else if verb == "session/cancel" {
        if session == "" {
          return None;
        }
        if cfg.bridge {
          CancelRemote(session);
        }
        MutateSession(session, (s: Session) => s.(cancelled := true));
        WriteResult(m, Cancelled);
      } else {
        err := WriteError(m, Unsupported(verb));
        return;
      }
      return None;
    }

    /** `broken` is the error, if any, that ends the input after the given lines. */
    method RunACP(lines: seq<string>, broken: Option<string>) returns (err: Option<Failure>)
      modifies this
      ensures var r := Run(old(sessions), cfg, lines);
              && sessions == r.sessions && trace == old(trace) + r.events
              && err == if r.stop.Some? || broken.None? then r.stop else Some(Input(broken.value))
    {
      hide Handle, Trim, Run;
      RunNothing(sessions, cfg);
      for i := 0 to |lines|
        invariant var r := Run(old(sessions), cfg, lines[..i]);
                  sessions == r.sessions && trace == old(trace) + r.events && r.stop.None?
      {
        RunStep(old(sessions), cfg, lines, i);
        var line := Trim(lines[i]);
        if line == "" {
          continue;
        }
        var payload := cfg.parse(line);
        if payload.None? {
          StopStays(old(sessions), cfg, lines, i + 1);
          return Some(BadLine);
        }
        err := HandleACPMessage(payload.value, cfg.env(i));
        if err.Some? {
          StopStays(old(sessions), cfg, lines, i + 1);
          return;
        }
      }
      assert lines[..|lines|] == lines;
      return if broken.Some? then Some(Input(broken.value)) else None;
    }
  }

  lemma NothingStreamed(cfg: Config, session: string)
    ensures Deltas(cfg, []) == [] && StreamIdIn(cfg, []) == "" && !DoneIn(cfg, []) && Concat([]) == ""
            && Updates(session, []) == []
  {
  }

  lemma StreamStep(cfg: Config, lines: seq<string>, i: nat)
    requires i < |lines|
    ensures var d := ReadLine(cfg, lines[i]);
            && Deltas(cfg, lines[..i + 1])
               == (if d.Data? && d.event.delta != "" then Deltas(cfg, lines[..i]) + [d.event.delta]
                   else Deltas(cfg, lines[..i]))
            && StreamIdIn(cfg, lines[..i + 1])
               == if d.Data? && Trim(d.event.streamId) != "" then Trim(d.event.streamId)
                   else StreamIdIn(cfg, lines[..i])
  {
    hide ReadLine, Trim;
    assert lines[..i + 1][..i] == lines[..i];
  }

  lemma DoneInStep(cfg: Config, lines: seq<string>, i: nat)
    requires i < |lines|
    ensures DoneIn(cfg, lines[..i + 1]) <==> DoneIn(cfg, lines[..i]) || Ends(cfg, lines[i])
  {
    hide Ends;
    if DoneIn(cfg, lines[..i]) {
      var k :| 0 <= k < i && Ends(cfg, lines[..i][k]);
      assert Ends(cfg, lines[..i + 1][k]);
    }
    if Ends(cfg, lines[i]) {
      assert Ends(cfg, lines[..i + 1][i]);
    }
    if DoneIn(cfg, lines[..i + 1]) {
      var k :| 0 <= k < i + 1 && Ends(cfg, lines[..i + 1][k]);
      assert k < i ==> Ends(cfg, lines[..i][k]);
    }
  }

  lemma UpdatesAppend(session: string, texts: seq<string>, text: string)
    ensures Updates(session, texts + [text]) == Updates(session, texts) + [Update(session, text)]
    ensures Concat(texts + [text]) == Concat(texts) + text
  {
    assert (texts + [text])[..|texts|] == texts;
  }

  // ---------------------------------------------------------------------------------------
  // Responses
  // ---------------------------------------------------------------------------------------

  function IdOf(e: Event): seq<string> {
    if e.Answered? || e.Failed? then [e.id] else []
  }

  predicate Quiet(e: Event) {
    IdOf(e) == []
  }

  /** The ids of the responses written, in order. */
  function Ids(events: seq<Event>): seq<string> {
    if events == [] then [] else Ids(events[..|events| - 1]) + IdOf(events[|events| - 1])
  }

  lemma {:induction false} IdsConcat(a: seq<Event>, b: seq<Event>)
    ensures Ids(a + b) == Ids(a) + Ids(b)
  {
    hide IdOf;
    if b == [] {
      assert a + b == a;
    } else {
      var before, last := b[..|b| - 1], b[|b| - 1];
      IdsConcat(a, before);
      assert (a + b)[..|a + b| - 1] == a + before;
      assert Ids(a) + Ids(before) + IdOf(last) == Ids(a) + (Ids(before) + IdOf(last));
    }
  }

  lemma {:induction false} NoIds(events: seq<Event>)
    requires forall e | e in events :: Quiet(e)
    ensures Ids(events) == []
  {
    if events != [] {
      NoIds(events[..|events| - 1]);
      assert events[|events| - 1] in events;
    }
  }

  /** The message on a line, if there is one. */
  function MessageOn(cfg: Config, raw: string): Option<Message> {
    if Trim(raw) == "" then None else cfg.parse(Trim(raw))
  }

  /** The ids of the request on a line: one for a message with an id, none for a notification. */
  function Asks(cfg: Config, raw: string): seq<string> {
    match MessageOn(cfg, raw) case None => [] case Some(m) => Asked(m)
  }

  function Asked(m: Message): seq<string> {
    if m.hasId then [m.id] else []
  }

  function RequestIds(cfg: Config, lines: seq<string>): seq<string> {
    if lines == [] then [] else RequestIds(cfg, lines[..|lines| - 1]) + Asks(cfg, lines[|lines| - 1])
  }

  predicate NoSession(m: Message) {
    Trim(m.verb) == "session/cancel" && Trim(m.sessionId) == ""
  }

  /** A request to cancel that names no session. */
  predicate BlankCancel(cfg: Config, raw: string) {
    var m := MessageOn(cfg, raw);
    m.Some? && m.value.hasId && NoSession(m.value)
  }

  /** The ids a line gets an answer for. */
  function Wants(cfg: Config, raw: string): seq<string> {
    if BlankCancel(cfg, raw) then [] else Asks(cfg, raw)
  }

  function WantedIds(cfg: Config, lines: seq<string>): seq<string> {
    if lines == [] then [] else WantedIds(cfg, lines[..|lines| - 1]) + Wants(cfg, lines[|lines| - 1])
  }

  lemma {:induction false} WantedConcat(cfg: Config, a: seq<string>, b: seq<string>)
    ensures WantedIds(cfg, a + b) == WantedIds(cfg, a) + WantedIds(cfg, b)
  {
    hide Wants;
    if b == [] {
      assert a + b == a;
    } else {
      var before, last := b[..|b| - 1], b[|b| - 1];
      WantedConcat(cfg, a, before);
      assert (a + b)[..|a + b| - 1] == a + before;
      assert WantedIds(cfg, a) + WantedIds(cfg, before) + Wants(cfg, last)
          == WantedIds(cfg, a) + (WantedIds(cfg, before) + Wants(cfg, last));
    }
  }

  lemma {:induction false} RequestsConcat(cfg: Config, a: seq<string>, b: seq<string>)
    ensures RequestIds(cfg, a + b) == RequestIds(cfg, a) + RequestIds(cfg, b)
  {
    hide Asks;
    if b == [] {
      assert a + b == a;
    } else {
      var before, last := b[..|b| - 1], b[|b| - 1];
      RequestsConcat(cfg, a, before);
      assert (a + b)[..|a + b| - 1] == a + before;
      assert RequestIds(cfg, a) + RequestIds(cfg, before) + Asks(cfg, last)
          == RequestIds(cfg, a) + (RequestIds(cfg, before) + Asks(cfg, last));
    }
  }

  /** Answers fall short of requests by the cancellations that name no session. */
  lemma {:induction false} WantedRequests(cfg: Config, lines: seq<string>)
    ensures |WantedIds(cfg, lines)| <= |RequestIds(cfg, lines)|
    ensures (forall raw | raw in lines :: !BlankCancel(cfg, raw)) ==> WantedIds(cfg, lines) == RequestIds(cfg, lines)
    ensures (exists raw :: raw in lines && BlankCancel(cfg, raw)) ==> |WantedIds(cfg, lines)| < |RequestIds(cfg, lines)|
  {
    hide MessageOn, NoSession;
    if lines != [] {
      var before, last := lines[..|lines| - 1], lines[|lines| - 1];
      WantedRequests(cfg, before);
      assert lines == before + [last];
    }
  }

  lemma {:induction false} NoRequests(cfg: Config, lines: seq<string>)
    ensures RequestIds(cfg, lines) == [] <==> forall i | 0 <= i < |lines| :: Asks(cfg, lines[i]) == []
  {
    hide Asks;
    if lines != [] {
      NoRequests(cfg, lines[..|lines| - 1]);
      assert forall i | 0 <= i < |lines| - 1 :: lines[..|lines| - 1][i] == lines[i];
    }
  }

  lemma EnsureQuiet(ss: Sessions, session: string, create: CreateReply)
    ensures forall e | e in Ensure(ss, session, create).events :: Quiet(e)
  {
    hide Trim;
  }

  lemma PromptQuiet(ss: Sessions, cfg: Config, session: string, prompt: string, env: Env)
    ensures forall e | e in Prompt(ss, cfg, session, prompt, env).events :: Quiet(e)
  {
    hide Ensure, Forwarded, StreamResult;
    EnsureQuiet(ss, session, env.create);
  }

  /** The ids of the responses are `ids`, at most one, and the response comes last. */
  ghost predicate Responds(events: seq<Event>, ids: seq<string>) {
    && |ids| <= 1
    && (ids == [] ==> forall e | e in events :: Quiet(e))
    && (ids != [] ==> events != [] && IdOf(events[|events| - 1]) == ids)
    && (ids != [] ==> forall e | e in events[..|events| - 1] :: Quiet(e))
  }

  lemma RespondsIds(events: seq<Event>, ids: seq<string>)
    requires Responds(events, ids)
    ensures Ids(events) == ids
  {
    if ids == [] {
      NoIds(events);
    } else {
      NoIds(events[..|events| - 1]);
    }
  }

  lemma WrittenResponds(ss: Sessions, events: seq<Event>, m: Message, body: Body, failure: Failure)
    requires forall e | e in events :: Quiet(e)
    ensures Responds(Replied(ss, events, m, body).events, Asked(m))
    ensures Responds(Refusal(ss, events, m, failure).events, Asked(m))
  {
    assert events + [Answered(m.id, body)] != [] && (events + [Answered(m.id, body)])[..|events|] == events;
    assert events + [Failed(m.id, failure)] != [] && (events + [Failed(m.id, failure)])[..|events|] == events;
  }

  lemma PromptResponds(ss: Sessions, cfg: Config, m: Message, session: string, env: Env)
    ensures var h := HandlePrompt(ss, cfg, m, session, env); Responds(h.events, Asked(m)) && (h.stop.Some? ==> !m.hasId)
  {
    hide Prompt, PromptText, Mutate, Finished, Responds;
    var prompt := PromptText(m.prompt);
    var p := Prompt(ss, cfg, session, prompt, env);
    PromptQuiet(ss, cfg, session, prompt, env);
    if cfg.bridge {
      match p.result
      case Err(reason) => WrittenResponds(p.sessions, p.events, m, Completed, Bridge(reason));
      case Ok((text, stream)) =>
        WrittenResponds(Mutate(p.sessions, session, Finished(prompt, text, stream)), p.events, m, Completed, BadLine);
    } else {
      var response := RECEIVED + prompt;
      var after := Mutate(ss, session, Finished(prompt, response, ""));
      WrittenResponds(after, [Update(session, response)], m, Completed, BadLine);
    }
  }

  lemma HandleResponds(ss: Sessions, cfg: Config, m: Message, env: Env)
    requires !(Trim(m.verb) == "session/cancel" && Trim(m.sessionId) == "")
    ensures var h := Handle(ss, cfg, m, env); Responds(h.events, Asked(m)) && (h.stop.Some? ==> !m.hasId)
  {
    hide HandlePrompt, Mutate, Trim, Known, Responds;
    var h := Handle(ss, cfg, m, env);
    var session, calls := Trim(m.sessionId), CancelCalls(cfg, ss, Trim(m.sessionId));
    PromptResponds(ss, cfg, m, session, env);
    WrittenResponds(ss, [], m, Initialized, MissingSession);
    WrittenResponds(ss, [], m, Authenticated, Unsupported(Trim(m.verb)));
    WrittenResponds(Touched(ss, env.newId), [], m, SessionIs(env.newId), BadLine);
    WrittenResponds(Touched(ss, session), [], m, SessionIs(session), BadLine);
    WrittenResponds(h.sessions, calls, m, Cancelled, BadLine);
  }

  /** Whatever a line makes the loop write, the responses are exactly those it asks for, the response
      comes last, and a line that stops the loop asks for none. */
  lemma TakeAnswers(ss: Sessions, cfg: Config, raw: string, env: Env)
    ensures var h := Take(ss, cfg, raw, env);
            && Responds(h.events, Wants(cfg, raw)) && Ids(h.events) == Wants(cfg, raw)
            && (h.stop.Some? ==> Wants(cfg, raw) == [])
  {
    hide Trim, Responds;
    var h := Take(ss, cfg, raw, env);
    assert Responds(h.events, Wants(cfg, raw)) && (h.stop.Some? ==> Wants(cfg, raw) == []) by {
      Silent();
      if Trim(raw) != "" && cfg.parse(Trim(raw)).Some? {
        var m := cfg.parse(Trim(raw)).value;
        if !(Trim(m.verb) == "session/cancel" && Trim(m.sessionId) == "") {
          hide Handle;
          HandleResponds(ss, cfg, m, env);
        }
      }
    }
    RespondsIds(h.events, Wants(cfg, raw));
  }

  lemma Silent()
    ensures Responds([], [])
  {
  }

  /** The number of lines handled before the loop ended. */
  function Reached(ss: Sessions, cfg: Config, lines: seq<string>): (n: nat)
    ensures n <= |lines|
  {
    if lines == [] then 0
    else if Run(ss, cfg, lines[..|lines| - 1]).stop.Some? then Reached(ss, cfg, lines[..|lines| - 1])
    else |lines|
  }

  /** The responses answer the requests among the lines reached, in input order, one each and nothing
      else, leaving out cancellations that name no session; so they answer all requests reached
      exactly when no such cancellation is among them. */
  lemma RunAnswers(ss: Sessions, cfg: Config, lines: seq<string>)
    ensures var reached := lines[..Reached(ss, cfg, lines)];
            && Ids(Run(ss, cfg, lines).events) == WantedIds(cfg, reached)
            && (Ids(Run(ss, cfg, lines).events) == RequestIds(cfg, reached)
                <==> forall raw | raw in reached :: !BlankCancel(cfg, raw))
  {
    hide Run, WantedIds, Ids, RequestIds, BlankCancel, Reached;
    RunWanted(ss, cfg, lines);
    WantedRequests(cfg, lines[..Reached(ss, cfg, lines)]);
  }

  lemma {:induction false} RunWanted(ss: Sessions, cfg: Config, lines: seq<string>)
    ensures Ids(Run(ss, cfg, lines).events) == WantedIds(cfg, lines[..Reached(ss, cfg, lines)])
  {
    hide Take, Wants, Ids, WantedIds;
    if lines == [] {
      NothingAtAll(cfg);
    } else {
      var n := |lines| - 1;
      var before := Run(ss, cfg, lines[..n]);
      RunWanted(ss, cfg, lines[..n]);
      if before.stop.None? {
        ReachedAll(ss, cfg, lines[..n]);
        var h := Take(before.sessions, cfg, lines[n], cfg.env(n));
        TakeAnswers(before.sessions, cfg, lines[n], cfg.env(n));
        IdsConcat(before.events, h.events);
        WantedLast(cfg, lines);
        assert lines[..n][..n] == lines[..n] && lines[..n + 1] == lines;
      } else {
        assert lines[..n][..Reached(ss, cfg, lines)] == lines[..Reached(ss, cfg, lines)];
      }
    }
  }

  lemma NothingAtAll(cfg: Config)
    ensures Ids([]) == [] && WantedIds(cfg, []) == []
  {
  }

  lemma WantedLast(cfg: Config, lines: seq<string>)
    requires lines != []
    ensures WantedIds(cfg, lines) == WantedIds(cfg, lines[..|lines| - 1]) + Wants(cfg, lines[|lines| - 1])
  {
    hide Wants;
  }

  lemma ReachedAll(ss: Sessions, cfg: Config, lines: seq<string>)
    requires Run(ss, cfg, lines).stop.None?
    ensures Reached(ss, cfg, lines) == |lines|
  {
    hide Take;
  }

  /** The loop is over after the last line reached exactly when that line stopped it. */
  lemma {:induction false} ReachedStops(ss: Sessions, cfg: Config, lines: seq<string>)
    ensures var n := Reached(ss, cfg, lines);
            && (Run(ss, cfg, lines).stop.Some? ==> n > 0 && Stops(ss, cfg, lines, n - 1))
            && (Run(ss, cfg, lines).stop.None? ==> n == |lines|)
            && forall i | 0 <= i < n - 1 :: !Stops(ss, cfg, lines, i)
  {
    hide Take;
    if lines != [] {
      var n := |lines| - 1;
      ReachedStops(ss, cfg, lines[..n]);
      assert lines[..n][..n] == lines[..n];
      forall i | 0 <= i < n ensures Stops(ss, cfg, lines, i) == Stops(ss, cfg, lines[..n], i) {
        assert lines[..n][..i] == lines[..i] && lines[..n][i] == lines[i];
      }
    }
  }

  predicate Stops(ss: Sessions, cfg: Config, lines: seq<string>, i: nat)
    requires i < |lines|
  {
    var before := Run(ss, cfg, lines[..i]);
    Take(before.sessions, cfg, lines[i], cfg.env(i)).stop.Some?
  }

  /** The bridge gives no answer to a prompt: no conversation is known and none is made, or the
      stream is refused, breaks off, or ends without any text and without saying so. */
  ghost predicate BridgeFails(ss: Sessions, cfg: Config, session: string, env: Env) {
    || (!Known(ss, session) && (env.create.NotCreated? || Blank(env.create.id)))
    || env.stream.Refused? || env.stream.broken.Some?
    || (Blank(Concat(Deltas(cfg, env.stream.lines))) && !DoneIn(cfg, env.stream.lines))
  }

  const VERBS: set<string> :=
    {"initialize", "authenticate", "session/new", "session/load", "session/prompt", "session/cancel"}

  /** A line that cannot be decoded, or a notification that names an unknown method, lacks the session
      it needs, or prompts a failing bridge. */
  ghost predicate Fatal(ss: Sessions, cfg: Config, raw: string, env: Env) {
    && !Blank(raw)
    && match cfg.parse(Trim(raw))
       case None => true
       case Some(m) =>
         var verb, session := Trim(m.verb), Trim(m.sessionId);
         && !m.hasId
         && (verb !in VERBS || (verb in {"session/load", "session/prompt"} && session == "")
             || (verb == "session/prompt" && cfg.bridge && BridgeFails(ss, cfg, session, env)))
  }

  lemma PromptFails(ss: Sessions, cfg: Config, session: string, prompt: string, env: Env)
    ensures Prompt(ss, cfg, session, prompt, env).result.Err? <==> BridgeFails(ss, cfg, session, env)
  {
    hide Trim, Blank, Deltas, DoneIn, Updates;
    if env.create.CreatedAs? { TrimShape(env.create.id); }
    if env.stream.Lines? { TrimShape(Concat(Deltas(cfg, env.stream.lines))); }
  }

  /** A line ends the loop exactly when it is fatal. */
  lemma StopsExactlyWhen(ss: Sessions, cfg: Config, raw: string, env: Env)
    ensures Take(ss, cfg, raw, env).stop.Some? <==> Fatal(ss, cfg, raw, env)
  {
    hide Trim, Blank, Prompt, PromptText, Mutate, Finished, BridgeFails, Known;
    TrimShape(raw);
    if Trim(raw) != "" && cfg.parse(Trim(raw)).Some? {
      var m := cfg.parse(Trim(raw)).value;
      PromptFails(ss, cfg, Trim(m.sessionId), PromptText(m.prompt), env);
    }
  }

  ghost predicate FatalAt(ss: Sessions, cfg: Config, lines: seq<string>, i: nat)
    requires i < |lines|
  {
    Fatal(Run(ss, cfg, lines[..i]).sessions, cfg, lines[i], cfg.env(i))
  }

  /** Every request of the input is answered, in order and once, exactly when none comes after a fatal
      line and none is a cancellation that names no session. */
  lemma AllAnsweredExactlyWhen(ss: Sessions, cfg: Config, lines: seq<string>)
    ensures Ids(Run(ss, cfg, lines).events) == RequestIds(cfg, lines)
       <==> && (forall i, j | 0 <= i < j < |lines| && FatalAt(ss, cfg, lines, i) :: Asks(cfg, lines[j]) == [])
            && (forall i | 0 <= i < |lines| :: !BlankCancel(cfg, lines[i]))
  {
    hide Take, Asks, Run, WantedIds, RequestIds, BlankCancel, Ids, Fatal, Reached;
    var n := Reached(ss, cfg, lines);
    var reached, after := lines[..n], lines[n..];
    RunWanted(ss, cfg, lines);
    ReachedStops(ss, cfg, lines);
    forall i | 0 <= i < |lines| ensures FatalAt(ss, cfg, lines, i) == Stops(ss, cfg, lines, i) {
      StopsExactlyWhen(Run(ss, cfg, lines[..i]).sessions, cfg, lines[i], cfg.env(i));
    }
    assert reached + after == lines;
    RequestsConcat(cfg, reached, after);
    WantedRequests(cfg, reached);
    NoRequests(cfg, after);
    assert forall j | n <= j < |lines| :: after[j - n] == lines[j];
    assert forall i | 0 <= i < n :: reached[i] == lines[i];
    forall j | n <= j < |lines| && Asks(cfg, lines[j]) == [] ensures !BlankCancel(cfg, lines[j]) {
      CancelAsks(cfg, lines[j]);
    }
    if n < |lines| {
      assert FatalAt(ss, cfg, lines, n - 1);
    }
  }

  lemma CancelAsks(cfg: Config, raw: string)
    ensures BlankCancel(cfg, raw) ==> Asks(cfg, raw) != []
  {
  }

  /** A request to cancel that names no session gets no response, although nothing stops the loop. */
  lemma BlankCancelUnanswered(cfg: Config, ss: Sessions, raw: string)
    requires BlankCancel(cfg, raw)
    ensures RequestIds(cfg, [raw]) != [] && Ids(Run(ss, cfg, [raw]).events) == []
    ensures !FatalAt(ss, cfg, [raw], 0)
  {
    hide Trim, Fatal;
    assert [raw][..0] == [];
    RunNothing(ss, cfg);
    assert Take(ss, cfg, raw, cfg.env(0)) == Handled(ss, [], None);
    assert Run(ss, cfg, [raw]) == Handled(ss, [], None);
    assert RequestIds(cfg, []) == [];
    StopsExactlyWhen(ss, cfg, raw, cfg.env(0));
  }

  /** A notification of an unknown method ends the loop: a request after it gets no response. */
  lemma NotificationSilencesRequests(cfg: Config, ss: Sessions, note: string, request: string)
    requires var m := MessageOn(cfg, note); m.Some? && !m.value.hasId && Trim(m.value.verb) !in VERBS
    requires Asks(cfg, request) != []
    ensures RequestIds(cfg, [note, request]) == Asks(cfg, request) && Ids(Run(ss, cfg, [note, request]).events) == []
  {
    hide Trim, Asks;
    assert [note, request][..1] == [note] && [note][..0] == [];
    NotificationAsks(cfg, note);
    RunNothing(ss, cfg);
    var m := MessageOn(cfg, note).value;
    assert Take(ss, cfg, note, cfg.env(0)) == Handled(ss, [], Some(Unsupported(Trim(m.verb))));
    assert Run(ss, cfg, [note]) == Handled(ss, [], Some(Unsupported(Trim(m.verb))));
    assert RequestIds(cfg, []) == [] && RequestIds(cfg, [note]) == [];
  }

  lemma NotificationAsks(cfg: Config, note: string)
    requires var m := MessageOn(cfg, note); m.Some? && !m.value.hasId
    ensures Asks(cfg, note) == []
  {
  }

  // ---------------------------------------------------------------------------------------
  // Sessions
  // ---------------------------------------------------------------------------------------

  /** Sessions are filed under their ids and a remote conversation id is never blank around. */
  ghost predicate Filed(ss: Sessions) {
    forall s | s in ss :: ss[s].id == s && Trim(ss[s].remoteId) == ss[s].remoteId
  }

  /** No session is lost, and one that has a conversation keeps it. */
  ghost predicate Follows(a: Sessions, b: Sessions) {
    forall s | s in a :: s in b && (a[s].remoteId != "" ==> b[s].remoteId == a[s].remoteId)
  }

  function Remote(ss: Sessions, s: string): string {
    if s in ss then ss[s].remoteId else ""
  }

  /** All calls about a session go to its own conversation. */
  ghost predicate Fits(e: Event, ss: Sessions) {
    match e
    case Create(s, Some(made)) => made != "" && Remote(ss, s) == made
    case Stream(s, conversation, _) => conversation != "" && Remote(ss, s) == conversation
    case CancelStream(s, conversation, stream) => conversation != "" && Remote(ss, s) == conversation && stream != ""
    case _ => true
  }

  predicate Makes(e: Event, s: string) {
    e.Create? && e.session == s && e.made.Some?
  }

  /** How many conversations were made for a session. */
  function Made(events: seq<Event>, s: string): nat {
    if events == [] then 0
    else Made(events[..|events| - 1], s) + if Makes(events[|events| - 1], s) then 1 else 0
  }

  lemma {:induction false} MadeConcat(a: seq<Event>, b: seq<Event>, s: string)
    ensures Made(a + b, s) == Made(a, s) + Made(b, s)
  {
    hide Makes;
    if b == [] {
      assert a + b == a;
    } else {
      MadeConcat(a, b[..|b| - 1], s);
      assert (a + b)[..|a + b| - 1] == a + b[..|b| - 1];
    }
  }

  lemma {:induction false} NoneMade(events: seq<Event>, s: string)
    requires forall e | e in events :: !Makes(e, s)
    ensures Made(events, s) == 0
  {
    if events != [] {
      NoneMade(events[..|events| - 1], s);
      assert events[|events| - 1] in events;
    }
  }

  function One(b: bool): nat {
    if b then 1 else 0
  }

  /** The step invariant: conversations made are exactly the remote ids gained. */
  ghost predicate Sound(a: Sessions, h: Sessions, events: seq<Event>) {
    && Filed(h) && Follows(a, h)
    && (forall e | e in events :: Fits(e, h))
    && forall s :: Made(events, s) + One(Remote(a, s) != "") == One(Remote(h, s) != "")
  }

  lemma SoundTogether(a: Sessions, b: Sessions, c: Sessions, e: seq<Event>, f: seq<Event>)
    requires Sound(a, b, e) && Sound(b, c, f)
    ensures Sound(a, c, e + f)
  {
    hide Made;
    forall s ensures Made(e + f, s) == Made(e, s) + Made(f, s) {
      MadeConcat(e, f, s);
    }
  }

  /** Only writing, to known sessions or none. */
  lemma WritingSound(ss: Sessions, events: seq<Event>)
    requires Filed(ss) && forall e | e in events :: e.Answered? || e.Failed? || e.Update?
    ensures Sound(ss, ss, events)
  {
    hide Made, Trim;
    forall s ensures Made(events, s) == 0 {
      NoneMade(events, s);
    }
  }

  /** A call about a session that has its conversation. */
  lemma CallSound(ss: Sessions, e: Event)
    requires Filed(ss) && Fits(e, ss) && !e.Create?
    ensures Sound(ss, ss, [e])
  {
    hide Made, Trim;
    forall s ensures Made([e], s) == 0 {
      NoneMade([e], s);
    }
  }

  lemma MutateSound(ss: Sessions, id: string, change: Session -> Session)
    requires Filed(ss)
    requires forall s :: change(s).id == s.id && change(s).remoteId == s.remoteId
    ensures Sound(ss, Mutate(ss, id, change), [])
  {
    TrimShape("");
    hide Trim;
    forall s ensures Made([], s) == 0 {
      NoneMade([], s);
    }
  }

  lemma EnsureSound(ss: Sessions, session: string, create: CreateReply)
    requires Filed(ss)
    ensures var e := Ensure(ss, session, create);
            && Sound(ss, e.sessions, e.events)
            && (e.conversation.Ok? ==>
                  e.conversation.value != "" && Remote(e.sessions, session) == e.conversation.value)
  {
    hide Trim, Made;
    var e := Ensure(ss, session, create);
    if create.CreatedAs? { TrimShape(create.id); }
    forall s ensures Made(e.events, s) == One(e.events != [] && Makes(e.events[0], s)) {
      if e.events != [] { MadeOne(e.events[0], s); } else { NoneMade([], s); }
    }
    TrimPlain("");
  }

  lemma MadeOne(e: Event, s: string)
    ensures Made([e], s) == One(Makes(e, s))
  {
    assert [e][..0] == [];
    assert Made([], s) == 0;
  }

  lemma PromptSound(ss: Sessions, cfg: Config, session: string, prompt: string, env: Env)
    requires Filed(ss)
    ensures var p := Prompt(ss, cfg, session, prompt, env); Sound(ss, p.sessions, p.events)
  {
    hide Ensure, StreamResult, Sound, Forwarded;
    EnsureSound(ss, session, env.create);
    var e := Ensure(ss, session, env.create);
    if e.conversation.Ok? {
      var call, updates := Stream(session, e.conversation.value, prompt), Updates(session, Forwarded(cfg, env.stream));
      assert Filed(e.sessions) by { SoundFiled(ss, e.sessions, e.events); }
      CallSound(e.sessions, call);
      WritingSound(e.sessions, updates);
      SoundTogether(ss, e.sessions, e.sessions, e.events, [call]);
      SoundTogether(ss, e.sessions, e.sessions, e.events + [call], updates);
    }
  }

  lemma SoundFiled(a: Sessions, b: Sessions, events: seq<Event>)
    requires Sound(a, b, events)
    ensures Filed(b) && Follows(a, b)
  {
  }

  lemma WrittenSound(a: Sessions, b: Sessions, events: seq<Event>, m: Message, body: Body, failure: Failure)
    requires Sound(a, b, events)
    ensures Sound(a, b, Replied(b, events, m, body).events)
    ensures Sound(a, b, Refusal(b, events, m, failure).events)
  {
    hide Sound;
    SoundFiled(a, b, events);
    WritingSound(b, [Answered(m.id, body)]);
    WritingSound(b, [Failed(m.id, failure)]);
    SoundTogether(a, b, b, events, [Answered(m.id, body)]);
    SoundTogether(a, b, b, events, [Failed(m.id, failure)]);
    assert events + [] == events;
  }

  /** Work on one session, then a change of its record that keeps the conversation. */
  lemma ChangeSound(a: Sessions, b: Sessions, events: seq<Event>, id: string, change: Session -> Session)
    requires Sound(a, b, events)
    requires forall s :: change(s).id == s.id && change(s).remoteId == s.remoteId
    ensures Sound(a, Mutate(b, id, change), events)
  {
    hide Sound, Mutate;
    SoundFiled(a, b, events);
    MutateSound(b, id, change);
    SoundTogether(a, b, Mutate(b, id, change), events, []);
    assert events + [] == events;
  }

  lemma HandlePromptSound(ss: Sessions, cfg: Config, m: Message, session: string, env: Env)
    requires Filed(ss)
    ensures var h := HandlePrompt(ss, cfg, m, session, env); Sound(ss, h.sessions, h.events)
  {
    hide Prompt, PromptText, Mutate, Sound;
    var prompt := PromptText(m.prompt);
    var p := Prompt(ss, cfg, session, prompt, env);
    PromptSound(ss, cfg, session, prompt, env);
    if cfg.bridge {
      match p.result
      case Err(reason) => WrittenSound(ss, p.sessions, p.events, m, Completed, Bridge(reason));
      case Ok((text, stream)) =>
        ChangeSound(ss, p.sessions, p.events, session, Finished(prompt, text, stream));
        WrittenSound(ss, Mutate(p.sessions, session, Finished(prompt, text, stream)), p.events, m, Completed, BadLine);
    } else {
      var response := RECEIVED + prompt;
      WritingSound(ss, [Update(session, response)]);
      ChangeSound(ss, ss, [Update(session, response)], session, Finished(prompt, response, ""));
      var after := Mutate(ss, session, Finished(prompt, response, ""));
      WrittenSound(ss, after, [Update(session, response)], m, Completed, BadLine);
    }
  }

  lemma CancelSound(ss: Sessions, cfg: Config, session: string)
    requires Filed(ss)
    ensures Sound(ss, ss, CancelCalls(cfg, ss, session))
  {
    hide Sound, Trim;
    var calls := CancelCalls(cfg, ss, session);
    if calls == [] {
      WritingSound(ss, []);
    } else {
      CallSound(ss, calls[0]);
      assert calls == [calls[0]];
    }
  }

  lemma TakeSound(ss: Sessions, cfg: Config, raw: string, env: Env)
    requires Filed(ss)
    ensures var h := Take(ss, cfg, raw, env); Sound(ss, h.sessions, h.events)
  {
    hide Trim, HandlePrompt, Mutate, Sound, CancelCalls;
    WritingSound(ss, []);
    if Trim(raw) != "" && cfg.parse(Trim(raw)).Some? {
      var m := cfg.parse(Trim(raw)).value;
      var session := Trim(m.sessionId);
      WrittenSound(ss, ss, [], m, Initialized, MissingSession);
      WrittenSound(ss, ss, [], m, Authenticated, Unsupported(Trim(m.verb)));
      ChangeSound(ss, ss, [], env.newId, s => s);
      WrittenSound(ss, Touched(ss, env.newId), [], m, SessionIs(env.newId), BadLine);
      ChangeSound(ss, ss, [], session, s => s);
      WrittenSound(ss, Touched(ss, session), [], m, SessionIs(session), BadLine);
      HandlePromptSound(ss, cfg, m, session, env);
      CancelSound(ss, cfg, session);
      var cancel := (s: Session) => s.(cancelled := true);
      ChangeSound(ss, ss, CancelCalls(cfg, ss, session), session, cancel);
      WrittenSound(ss, Mutate(ss, session, cancel), CancelCalls(cfg, ss, session), m, Cancelled, BadLine);
    }
  }

  /** Over every run: no session is lost, a conversation once assigned never changes, every prompt and
      cancellation of a session goes to that conversation, and one is made at most once. */
  lemma {:induction false} RunSound(ss: Sessions, cfg: Config, lines: seq<string>)
    requires Filed(ss)
    ensures var r := Run(ss, cfg, lines); Sound(ss, r.sessions, r.events)
  {
    hide Take, Sound;
    if lines == [] {
      WritingSound(ss, []);
    } else {
      var n := |lines| - 1;
      var before := Run(ss, cfg, lines[..n]);
      RunSound(ss, cfg, lines[..n]);
      if before.stop.None? {
        SoundFiled(ss, before.sessions, before.events);
        var h := Take(before.sessions, cfg, lines[n], cfg.env(n));
        TakeSound(before.sessions, cfg, lines[n], cfg.env(n));
        SoundTogether(ss, before.sessions, h.sessions, before.events, h.events);
      }
    }
  }

  /** The program from its start: every call about a session, at whatever time, goes to the one
      conversation that was made for it. */
  lemma OneConversationEach(cfg: Config, lines: seq<string>, e: Event, f: Event)
    requires var r := Run(map[], cfg, lines); e in r.events && f in r.events
    requires (e.Stream? || e.CancelStream?) && (f.Stream? || f.CancelStream?) && e.session == f.session
    ensures e.conversation == f.conversation && Made(Run(map[], cfg, lines).events, e.session) == 1
  {
    hide Run, Made;
    RunSound(map[], cfg, lines);
    var r := Run(map[], cfg, lines);
    assert Fits(e, r.sessions) && Fits(f, r.sessions);
    assert Made(r.events, e.session) + One(Remote(map[], e.session) != "") == One(Remote(r.sessions, e.session) != "");
  }

  // ---------------------------------------------------------------------------------------
  // Prompts
  // ---------------------------------------------------------------------------------------

  /** The texts of the updates written for a session, in order. */
  function Texts(events: seq<Event>, session: string): seq<string> {
    if events == [] then []
    else
      var before, last := Texts(events[..|events| - 1], session), events[|events| - 1];
      if last.Update? && last.session == session then before + [last.text] else before
  }

  lemma {:induction false} TextsConcat(a: seq<Event>, b: seq<Event>, session: string)
    ensures Texts(a + b, session) == Texts(a, session) + Texts(b, session)
  {
    if b == [] {
      assert a + b == a;
    } else {
      TextsConcat(a, b[..|b| - 1], session);
      assert (a + b)[..|a + b| - 1] == a + b[..|b| - 1];
    }
  }

  lemma {:induction false} TextsOfUpdates(session: string, texts: seq<string>)
    ensures Texts(Updates(session, texts), session) == texts
  {
    if texts != [] {
      TextsOfUpdates(session, texts[..|texts| - 1]);
      assert texts[..|texts| - 1] + [texts[|texts| - 1]] == texts;
      assert Updates(session, texts)[..|texts| - 1] == Updates(session, texts[..|texts| - 1]);
    }
  }

  lemma {:induction false} NoTexts(events: seq<Event>, session: string)
    requires forall e | e in events :: !e.Update?
    ensures Texts(events, session) == []
  {
    if events != [] {
      NoTexts(events[..|events| - 1], session);
      assert events[|events| - 1] in events;
    }
  }

  lemma PromptTexts(ss: Sessions, cfg: Config, session: string, prompt: string, env: Env)
    ensures var p := Prompt(ss, cfg, session, prompt, env);
            p.result.Ok? ==> Texts(p.events, session) == Forwarded(cfg, env.stream)
  {
    hide StreamResult, Forwarded, Texts, Updates, Trim;
    var e := Ensure(ss, session, env.create);
    if e.conversation.Ok? {
      var call, updates := Stream(session, e.conversation.value, prompt), Updates(session, Forwarded(cfg, env.stream));
      NoTexts(e.events + [call], session);
      TextsConcat(e.events + [call], updates, session);
      TextsOfUpdates(session, Forwarded(cfg, env.stream));
    }
  }

  /** A prompt that completes records as its response exactly the text that was streamed out for its
      session, trimmed when it came from the bridge; one that fails records nothing about the turn. */
  lemma PromptRecorded(ss: Sessions, cfg: Config, m: Message, env: Env)
    requires Trim(m.verb) == "session/prompt" && Trim(m.sessionId) != ""
    ensures var h, session := Handle(ss, cfg, m, env), Trim(m.sessionId);
            if cfg.bridge && BridgeFails(ss, cfg, session, env) then
              SessionOr(h.sessions, session) == SessionOr(ss, session).(remoteId := Remote(h.sessions, session))
            else
              var sent := Concat(Texts(h.events, session));
              && session in h.sessions
              && h.sessions[session].lastResponse == (if cfg.bridge then Trim(sent) else sent)
              && h.sessions[session].lastPrompt == PromptText(m.prompt) && !h.sessions[session].cancelled
              && h.sessions[session].lastStreamId == if cfg.bridge then StreamIdIn(cfg, env.stream.lines) else ""
  {
    hide Trim, Texts, Deltas, DoneIn, StreamIdIn, BridgeFails, PromptText, Updates, Known, Ensure;
    var session, prompt := Trim(m.sessionId), PromptText(m.prompt);
    var p := Prompt(ss, cfg, session, prompt, env);
    PromptFails(ss, cfg, session, prompt, env);
    PromptTexts(ss, cfg, session, prompt, env);
    var h := Handle(ss, cfg, m, env);
    var events := if cfg.bridge then p.events else [Update(session, RECEIVED + prompt)];
    var answer := if m.hasId then [Answered(m.id, Completed)] else [];
    NoTexts(answer, session);
    TextsConcat(events, answer, session);
    OneUpdate(session, RECEIVED + prompt);
    EnsureRecord(ss, session, env.create);
    if !(cfg.bridge && BridgeFails(ss, cfg, session, env)) {
      assert h.events == events + answer;
      assert Texts(h.events, session) == Texts(events, session);
      if cfg.bridge {
        assert Texts(h.events, session) == Deltas(cfg, env.stream.lines);
      }
    }
  }

  lemma EnsureRecord(ss: Sessions, session: string, create: CreateReply)
    ensures var e := Ensure(ss, session, create);
            && SessionOr(e.sessions, session) == SessionOr(ss, session).(remoteId := Remote(e.sessions, session))
            && forall s | s != session :: SessionOr(e.sessions, s) == SessionOr(ss, s) && (s in e.sessions <==> s in ss)
  {
    hide Trim;
  }

  lemma OneUpdate(session: string, text: string)
    ensures Texts([Update(session, text)], session) == [text] && Concat([text]) == text
  {
    assert [Update(session, text)][..0] == [] && [text][..0] == [];
    assert Texts([], session) == [] && Concat([]) == "";
  }

  /** The session a message is about. */
  function Target(m: Message, env: Env): string {
    if Trim(m.verb) == "session/new" then env.newId else Trim(m.sessionId)
  }

  lemma PromptKeepsOthers(ss: Sessions, cfg: Config, m: Message, session: string, env: Env, s: string)
    requires s != session
    ensures var h := HandlePrompt(ss, cfg, m, session, env).sessions;
            SessionOr(h, s) == SessionOr(ss, s) && (s in h <==> s in ss)
  {
    hide Trim, Ensure, StreamResult, PromptText, Updates, Forwarded;
    EnsureRecord(ss, session, env.create);
  }

  /** A message leaves every other session as it was. */
  lemma OthersUntouched(ss: Sessions, cfg: Config, m: Message, env: Env, s: string)
    requires s != Target(m, env)
    ensures var h := Handle(ss, cfg, m, env).sessions; SessionOr(h, s) == SessionOr(ss, s) && (s in h <==> s in ss)
  {
    hide Trim, HandlePrompt, CancelCalls;
    if Trim(m.verb) == "session/prompt" && Trim(m.sessionId) != "" {
      PromptKeepsOthers(ss, cfg, m, Trim(m.sessionId), env, s);
    }
  }

  // ---------------------------------------------------------------------------------------
  // Streams written out
  // ---------------------------------------------------------------------------------------

  predicate DataWord(word: string) {
    |word| == 5 && forall i | 0 <= i < 5 :: LowerChar(word[i]) == "data:"[i]
  }

  /** A line that carries `payload`: blanks, the word `data:` in any letter case, blanks, the payload
      and blanks again. */
  ghost predicate Carries(line: string, payload: string) {
    && NoBlankEnds(payload)
    && exists a, word, gap, b ::
         Blank(a) && DataWord(word) && Blank(gap) && Blank(b) && line == a + word + gap + payload + b
  }

  /** A line that is no data line: once trimmed it does not begin with `data:`. */
  predicate Other(line: string) {
    |Trim(line)| < 5 || !DataWord(Trim(line)[..5])
  }

  lemma LowerWord(word: string)
    requires |word| == 5
    ensures Lower(word) == "data:" <==> DataWord(word)
  {
    forall i | 0 <= i < 5 ensures |Lower(word)| == 5 && Lower(word)[i] == LowerChar(word[i]) {
      LowerAt(word, i);
    }
  }

  lemma ReadOther(cfg: Config, line: string)
    requires Other(line)
    ensures ReadLine(cfg, line) == Skipped
  {
    hide Trim, Lower;
    if |Trim(line)| >= 5 {
      LowerWord(Trim(line)[..5]);
    }
  }

  lemma ReadCarried(cfg: Config, line: string, payload: string)
    requires Carries(line, payload)
    ensures ReadLine(cfg, line) ==
            if payload == "" then Skipped
            else if payload == "[DONE]" then DoneMark
            else match cfg.decode(payload) case None => Skipped case Some(event) => Data(event)
  {
    hide Trim, Lower, IsSpace;
    var a, word, gap, b :|
      Blank(a) && DataWord(word) && Blank(gap) && Blank(b) && line == a + word + gap + payload + b;
    WordNotBlank(word);
    LowerWord(word);
    var rest := if payload == "" then "" else gap + payload;
    var after := if payload == "" then gap + payload + b else b;
    assert Blank(after) && NoBlankEnds(word + rest);
    assert line == a + (word + rest) + after;
    TrimBetween(a, word + rest, after);
    assert (word + rest)[..5] == word && (word + rest)[5..] == rest;
    TrimBetween(if payload == "" then "" else gap, payload, "");
    assert rest == (if payload == "" then "" else gap) + payload + "";
  }

  lemma WordNotBlank(word: string)
    requires DataWord(word)
    ensures !IsSpace(word[0]) && !IsSpace(word[4])
  {
    assert LowerChar(word[0]) == 'd' && LowerChar(word[4]) == ':';
  }

  lemma {:induction false} StreamConcat(cfg: Config, a: seq<string>, b: seq<string>)
    ensures Deltas(cfg, a + b) == Deltas(cfg, a) + Deltas(cfg, b)
    ensures StreamIdIn(cfg, a + b) == if StreamIdIn(cfg, b) != "" then StreamIdIn(cfg, b) else StreamIdIn(cfg, a)
    ensures DoneIn(cfg, a + b) <==> DoneIn(cfg, a) || DoneIn(cfg, b)
  {
    hide ReadLine, Trim, Ends;
    if b == [] {
      assert a + b == a;
    } else {
      var before := b[..|b| - 1];
      StreamConcat(cfg, a, before);
      assert (a + b)[..|a + b| - 1] == a + before && (a + b)[|a + b| - 1] == b[|b| - 1];
      DoneConcat(cfg, a, b);
    }
  }

  lemma DoneConcat(cfg: Config, a: seq<string>, b: seq<string>)
    ensures DoneIn(cfg, a + b) <==> DoneIn(cfg, a) || DoneIn(cfg, b)
  {
    hide Ends;
    if DoneIn(cfg, a) {
      var i :| 0 <= i < |a| && Ends(cfg, a[i]);
      assert Ends(cfg, (a + b)[i]);
    }
    if DoneIn(cfg, b) {
      var i :| 0 <= i < |b| && Ends(cfg, b[i]);
      assert Ends(cfg, (a + b)[|a| + i]);
    }
  }

  lemma OneLine(cfg: Config, line: string)
    ensures var d := ReadLine(cfg, line);
            && Deltas(cfg, [line]) == (if d.Data? && d.event.delta != "" then [d.event.delta] else [])
            && StreamIdIn(cfg, [line]) == (if d.Data? then Trim(d.event.streamId) else "")
            && (DoneIn(cfg, [line]) <==> Ends(cfg, line))
  {
    hide ReadLine, Trim, Ends;
    assert [line][..0] == [] && [line][0] == line;
    NothingStreamed(cfg, "");
  }

  /** A line means nothing: it is no data line, or its payload is empty or cannot be decoded. */
  ghost predicate Meaningless(cfg: Config, line: string) {
    || Other(line)
    || exists payload ::
         Carries(line, payload) && (payload == "" || (payload != "[DONE]" && cfg.decode(payload).None?))
  }

  /** Such a line changes neither what is forwarded nor the result, wherever it stands. */
  lemma MeaninglessIgnored(cfg: Config, before: seq<string>, line: string, after: seq<string>, broken: Option<string>)
    requires Meaningless(cfg, line)
    ensures Forwarded(cfg, Lines(before + [line] + after, broken)) == Forwarded(cfg, Lines(before + after, broken))
    ensures StreamResult(cfg, Lines(before + [line] + after, broken))
         == StreamResult(cfg, Lines(before + after, broken))
  {
    hide ReadLine, Trim, Deltas, StreamIdIn, DoneIn;
    if Other(line) {
      ReadOther(cfg, line);
    } else {
      var payload :|
        Carries(line, payload) && (payload == "" || (payload != "[DONE]" && cfg.decode(payload).None?));
      ReadCarried(cfg, line, payload);
    }
    OneLine(cfg, line);
    StreamConcat(cfg, before, [line]);
    StreamConcat(cfg, before + [line], after);
    StreamConcat(cfg, before, after);
  }

  /** The line `data: [DONE]` adds no text; with it a stream that does not break off succeeds, with or
      without text. */
  lemma DoneSucceeds(cfg: Config, before: seq<string>, line: string, after: seq<string>)
    requires Carries(line, "[DONE]")
    ensures Forwarded(cfg, Lines(before + [line] + after, None)) == Forwarded(cfg, Lines(before + after, None))
    ensures StreamResult(cfg, Lines(before + [line] + after, None))
            == Ok((Trim(Concat(Forwarded(cfg, Lines(before + after, None)))), StreamIdIn(cfg, before + after)))
    ensures StreamResult(cfg, Lines([line], None)) == Ok(("", ""))
  {
    ReadCarried(cfg, line, "[DONE]");
    TrimPlain("");
    hide ReadLine, Trim, Deltas, StreamIdIn, DoneIn;
    assert Ends(cfg, line);
    OneLine(cfg, line);
    StreamConcat(cfg, before, [line]);
    StreamConcat(cfg, before + [line], after);
    StreamConcat(cfg, before, after);
  }

  /** A line that carries the event. */
  ghost predicate Announces(cfg: Config, line: string, event: StreamEvent) {
    exists payload :: payload !in ["", "[DONE]"] && Carries(line, payload) && cfg.decode(payload) == Some(event)
  }

  function DeltaTexts(events: seq<StreamEvent>): seq<string> {
    seq(|events|, i requires 0 <= i < |events| => events[i].delta)
  }

  function NonEmpty(): string -> bool {
    (text: string) => text != ""
  }

  /** The last stream id that is not blank, trimmed. */
  ghost predicate IsLastId(events: seq<StreamEvent>, id: string) {
    || (id == "" && forall i | 0 <= i < |events| :: Trim(events[i].streamId) == "")
    || exists i :: 0 <= i < |events| && id == Trim(events[i].streamId) != ""
                && forall j | i < j < |events| :: Trim(events[j].streamId) == ""
  }

  /** A stream of events, one a line: forwarded are exactly the non-empty deltas in order; the result is
      their trimmed concatenation with the last stream id, or the complaint about missing data if the
      text is blank and no event said that it was the last. */
  lemma EventsStreamed(cfg: Config, lines: seq<string>, events: seq<StreamEvent>)
    requires |lines| == |events| && forall i | 0 <= i < |lines| :: Announces(cfg, lines[i], events[i])
    ensures Forwarded(cfg, Lines(lines, None)) == Filter(DeltaTexts(events), NonEmpty())
    ensures exists id ::
              && IsLastId(events, id)
              && var text := Trim(Concat(Filter(DeltaTexts(events), NonEmpty())));
                 StreamResult(cfg, Lines(lines, None))
                 == if text == "" && forall i | 0 <= i < |events| :: !events[i].done
                    then Err("blue stream returned no response data") else Ok((text, id))
  {
    hide ReadLine, Trim, Deltas, StreamIdIn, DoneIn, Concat, IsLastId, Filter, Announces;
    EventsRead(cfg, lines, events);
    assert IsLastId(events, StreamIdIn(cfg, lines));
  }

  lemma {:induction false} EventsRead(cfg: Config, lines: seq<string>, events: seq<StreamEvent>)
    requires |lines| == |events| && forall i | 0 <= i < |lines| :: Announces(cfg, lines[i], events[i])
    ensures Deltas(cfg, lines) == Filter(DeltaTexts(events), NonEmpty())
    ensures IsLastId(events, StreamIdIn(cfg, lines))
    ensures DoneIn(cfg, lines) <==> exists i :: 0 <= i < |events| && events[i].done
  {
    hide Announces, Trim, ReadLine, Filter, Deltas, StreamIdIn, IsLastId, Ends;
    EventsDone(cfg, lines, events);
    if lines == [] {
      NothingStreamed(cfg, "");
      NoLastId();
      assert DeltaTexts(events) == [] && events == [];
      FilterNone(NonEmpty());
    } else {
      var n := |lines| - 1;
      EventsRead(cfg, lines[..n], events[..n]);
      EventRead(cfg, lines[n], events[n]);
      OneLine(cfg, lines[n]);
      StreamConcat(cfg, lines[..n], [lines[n]]);
      assert lines[..n] + [lines[n]] == lines;
      FilterAppend(DeltaTexts(events[..n]), events[n].delta, NonEmpty());
      assert DeltaTexts(events[..n]) + [events[n].delta] == DeltaTexts(events);
      LastIdStep(events, StreamIdIn(cfg, lines[..n]));
    }
  }

  lemma NoLastId()
    ensures IsLastId([], "")
  {
  }

  lemma EventRead(cfg: Config, line: string, event: StreamEvent)
    requires Announces(cfg, line, event)
    ensures ReadLine(cfg, line) == Data(event) && (Ends(cfg, line) <==> event.done)
  {
    hide Trim, ReadLine, Carries;
    var payload :| payload !in ["", "[DONE]"] && Carries(line, payload) && cfg.decode(payload) == Some(event);
    ReadCarried(cfg, line, payload);
  }

  lemma EventsDone(cfg: Config, lines: seq<string>, events: seq<StreamEvent>)
    requires |lines| == |events| && forall i | 0 <= i < |lines| :: Announces(cfg, lines[i], events[i])
    ensures DoneIn(cfg, lines) <==> exists i :: 0 <= i < |events| && events[i].done
  {
    hide Announces, Ends;
    forall i | 0 <= i < |lines| ensures Ends(cfg, lines[i]) <==> events[i].done {
      EventRead(cfg, lines[i], events[i]);
    }
  }

  lemma LastIdStep(events: seq<StreamEvent>, before: string)
    requires events != [] && IsLastId(events[..|events| - 1], before)
    ensures var id := Trim(events[|events| - 1].streamId); IsLastId(events, if id != "" then id else before)
  {
    hide Trim;
    var n := |events| - 1;
    assert forall i | 0 <= i < n :: events[..n][i] == events[i];
    if Trim(events[n].streamId) == "" && before != "" {
      var i :| 0 <= i < n && before == Trim(events[..n][i].streamId) != ""
            && forall j | i < j < n :: Trim(events[..n][j].streamId) == "";
      assert before == Trim(events[i].streamId) != "";
    }
  }

  // ---------------------------------------------------------------------------------------
  // Messages written out
  // ---------------------------------------------------------------------------------------

  /** Why the bridge fails: the text of the first thing that goes wrong. */
  function BridgeError(ss: Sessions, cfg: Config, session: string, env: Env): string {
    if !Known(ss, session) && env.create.NotCreated? then env.create.reason
    else if !Known(ss, session) && Trim(env.create.id) == "" then "blue create conversation did not return id"
    else
      match env.stream
      case Refused(reason) => reason
      case Lines(_, Some(reason)) => reason
      case Lines(_, None) => "blue stream returned no response data"
  }

  /** The response to each kind of request; it is the last thing written for it. */
  lemma ResponseWritten(ss: Sessions, cfg: Config, m: Message, env: Env)
    requires m.hasId && !NoSession(m)
    ensures var h, verb, session := Handle(ss, cfg, m, env), Trim(m.verb), Trim(m.sessionId);
            && h.events != [] && h.stop.None?
            && h.events[|h.events| - 1] ==
                 if verb == "initialize" then Answered(m.id, Initialized)
                 else if verb == "authenticate" then Answered(m.id, Authenticated)
                 else if verb == "session/new" then Answered(m.id, SessionIs(env.newId))
                 else if verb !in {"session/load", "session/prompt", "session/cancel"}
                 then Failed(m.id, Unsupported(verb))
                 else if session == "" then Failed(m.id, MissingSession)
                 else if verb == "session/load" then Answered(m.id, SessionIs(session))
                 else if verb == "session/cancel" then Answered(m.id, Cancelled)
                 else if cfg.bridge && BridgeFails(ss, cfg, session, env)
                 then Failed(m.id, Bridge(BridgeError(ss, cfg, session, env)))
                 else Answered(m.id, Completed)
  {
    hide Trim, HandlePrompt, CancelCalls, Mutate, BridgeFails, BridgeError, Known;
    if Trim(m.verb) == "session/prompt" && Trim(m.sessionId) != "" {
      PromptResponse(ss, cfg, m, Trim(m.sessionId), env);
    }
  }

  lemma PromptResponse(ss: Sessions, cfg: Config, m: Message, session: string, env: Env)
    requires m.hasId
    ensures var h := HandlePrompt(ss, cfg, m, session, env);
            && h.events != [] && h.stop.None?
            && h.events[|h.events| - 1] ==
                 if cfg.bridge && BridgeFails(ss, cfg, session, env)
                 then Failed(m.id, Bridge(BridgeError(ss, cfg, session, env))) else Answered(m.id, Completed)
  {
    hide Trim, Prompt, PromptText, Mutate, BridgeFails, BridgeError;
    PromptFails(ss, cfg, session, PromptText(m.prompt), env);
    PromptError(ss, cfg, session, PromptText(m.prompt), env);
  }

  lemma PromptError(ss: Sessions, cfg: Config, session: string, prompt: string, env: Env)
    ensures var r := Prompt(ss, cfg, session, prompt, env).result;
            r.Err? ==> r.reason == BridgeError(ss, cfg, session, env)
  {
    hide Trim, Deltas, DoneIn, Updates, Mutate;
  }

  /** What a message makes the loop do before its response, if it gets one. */
  function BeforeResponse(events: seq<Event>, m: Message): seq<Event> {
    if m.hasId && events != [] then events[..|events| - 1] else events
  }

  /** The calls and updates made for a prompt. Without a bridge the one update repeats the prompt. With
      it a conversation is made if none is known, the prompt is streamed to the conversation, and the
      deltas are passed on for the session. */
  lemma PromptCalls(ss: Sessions, cfg: Config, m: Message, env: Env)
    requires Trim(m.verb) == "session/prompt" && Trim(m.sessionId) != ""
    ensures var events := BeforeResponse(Handle(ss, cfg, m, env).events, m);
            var session, prompt := Trim(m.sessionId), PromptText(m.prompt);
            if !cfg.bridge then events == [Update(session, "agentcore-runner received: " + prompt)]
            else if Known(ss, session) then
              events == [Stream(session, Trim(ss[session].remoteId), prompt)]
                        + Updates(session, Forwarded(cfg, env.stream))
            else if env.create.NotCreated? || Trim(env.create.id) == "" then events == [Create(session, None)]
            else
              var made := Trim(env.create.id);
              events == [Create(session, Some(made)), Stream(session, made, prompt)]
                        + Updates(session, Forwarded(cfg, env.stream))
  {
    hide Trim, PromptText, StreamResult, Forwarded, Updates, Mutate;
  }

  /** What each message other than a prompt does to the session table and calls. */
  lemma RecordsWritten(ss: Sessions, cfg: Config, m: Message, env: Env)
    requires Trim(m.verb) != "session/prompt"
    ensures var h, verb, session := Handle(ss, cfg, m, env), Trim(m.verb), Trim(m.sessionId);
            var old_ := if session in ss then ss[session] else Session(session, "", "", "", false, "");
            if verb == "session/new" then
              h.sessions == if env.newId in ss then ss else ss[env.newId := Session(env.newId, "", "", "", false, "")]
            else if session == "" || verb !in {"session/load", "session/cancel"} then h.sessions == ss
            else if verb == "session/load" then h.sessions == ss[session := old_]
            else
              && h.sessions == ss[session := old_.(cancelled := true)]
              && BeforeResponse(h.events, m) ==
                   if cfg.bridge && Trim(old_.remoteId) != "" && Trim(old_.lastStreamId) != ""
                   then [CancelStream(session, old_.remoteId, Trim(old_.lastStreamId))] else []
  {
    TrimPlain("");
    hide Trim;
    assert env.newId in ss ==> ss[env.newId := ss[env.newId]] == ss;
  }

  /** The prompt is built from its items one by one: each non-blank item trimmed, with one line break
      between two. */
  lemma {:induction false} PromptTextJoins(a: seq<string>, b: seq<string>)
    ensures PromptText(a + b) == if PromptText(a) == "" then PromptText(b)
                                 else if PromptText(b) == "" then PromptText(a)
                                 else PromptText(a) + "\n" + PromptText(b)
    ensures forall item :: PromptText([item]) == Trim(item)
  {
    hide Trim;
    forall item ensures PromptText([item]) == Trim(item) {
      assert [item][..0] == [] && PromptText([]) == "";
    }
    if b == [] {
      assert a + b == a;
    } else {
      var before, text := b[..|b| - 1], Trim(b[|b| - 1]);
      PromptTextJoins(a, before);
      assert (a + b)[..|a + b| - 1] == a + before;
      assert PromptText(a) + "\n" + PromptText(before) + "\n" + text
          == PromptText(a) + "\n" + (PromptText(before) + "\n" + text);
    }
  }
}
