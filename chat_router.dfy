/**
 * The market-chat routes (backend/app/api/chat_router.py): a per-user message
 * log kept in a database session whose add / commit / rollback sequence
 * decides what persists, a lazily created and cached AI client, and the
 * model input built from the last ten stored messages.
 *
 * The AI call is a parameter `ai` from the model input to a reply; a reply
 * is either text (empty when the service answered nothing) or an exception
 * with its text.
 */
module ChatRouter {
  import opened Wrappers
  import opened Text
  import opened Config

  /** One stored chat row. `created_at` is the row's position in the log. */
  datatype Message = Message(id: int, userId: int, role: Role, content: string)

  /** The `role` strings "system", "user" and "assistant". */
  datatype Role = SystemRole | UserRole | AssistantRole

  /** One entry of the model input: `{"role": …, "content": …}`. */
  datatype Wire = Wire(role: Role, content: string)

  /** What the AI call produced. */
  datatype AiReply = Reply(text: string) | Raised(error: string)

  /** A constructed AI client, identified by the key it was built with. */
  datatype Client = Client(apiKey: string)

  /** One item of `GET /chat/messages`. */
  datatype ChatMessageItem = ChatMessageItem(id: int, role: Role, content: string)

  const HistoryLimit := 10

  const NotConfiguredText := "AI service is not configured. Please set OPENAI_API_KEY environment variable."
  const EmptyMessage := HttpError(400, "Message cannot be empty")
  const NotConfigured := HttpError(503, NotConfiguredText)
  const NoResponse := HttpError(500, "No response from AI service")

  const SystemPrompt :=
    "You are an expert AI trading assistant for Profit Path, a financial trading platform. \n"
    + "Your role is to help users with:\n"
    + "- Market analysis and insights\n"
    + "- Trading strategies and techniques\n"
    + "- Stock recommendations and analysis\n"
    + "- Risk management advice\n"
    + "- General financial market questions\n"
    + "\n"
    + "Always provide accurate, helpful, and professional responses. If asked about specific stocks, provide balanced analysis \n"
    + "and remind users that this is not financial advice. Be concise but informative."

  /** The assistant row stored when processing raised `error`. */
  function ErrorReply(error: string): string {
    "Sorry, I encountered an error: " + error + ". Please try again."
  }

  function Failed(error: string): HttpError {
    HttpError(500, "Failed to process chat message: " + error)
  }

  // ---------------------------------------------------------------------------
  // Reading the log

  /** `filter(user_id == userId)`, in log order (the order of `created_at`). */
  function MessagesOf(ms: seq<Message>, userId: int): (r: seq<Message>)
    ensures |r| <= |ms|
    ensures forall i :: 0 <= i < |r| ==> r[i].userId == userId
  {
    if ms == [] then []
    else MessagesOf(ms[..|ms| - 1], userId) + (if ms[|ms| - 1].userId == userId then [ms[|ms| - 1]] else [])
  }

  /** Every message of the user is selected, and only messages from the log are. */
  lemma {:induction false} MessagesOfExact(ms: seq<Message>, userId: int)
    ensures forall m :: m in MessagesOf(ms, userId) <==> m in ms && m.userId == userId
    decreases |ms|
  {
    if ms != [] {
      var init := ms[..|ms| - 1];
      MessagesOfExact(init, userId);
      assert ms == init + [ms[|ms| - 1]];
    }
  }

  /** Selecting from a concatenated log selects from each part. */
  lemma {:induction false} MessagesOfAppend(a: seq<Message>, b: seq<Message>, userId: int)
    ensures MessagesOf(a + b, userId) == MessagesOf(a, userId) + MessagesOf(b, userId)
    decreases |b|
  {
    if b == [] {
      assert a + b == a;
    } else {
      var b' := b[..|b| - 1];
      assert (a + b)[..|a + b| - 1] == a + b';
      MessagesOfAppend(a, b', userId);
    }
  }

  /** Rows all of one user are all selected for that user and none for another. */
  lemma {:induction false} MessagesOfOwn(ms: seq<Message>, userId: int, other: int)
    requires other != userId && forall i :: 0 <= i < |ms| ==> ms[i].userId == userId
    ensures MessagesOf(ms, userId) == ms && MessagesOf(ms, other) == []
    decreases |ms|
  {
    if ms != [] {
      MessagesOfOwn(ms[..|ms| - 1], userId, other);
      assert ms[..|ms| - 1] + [ms[|ms| - 1]] == ms;
    }
  }

  /** `get_chat_messages`: the user's messages, oldest first. */
  function GetChatMessages(committed: seq<Message>, userId: int): (r: seq<ChatMessageItem>)
    ensures var mine := MessagesOf(committed, userId);
      |r| == |mine| && forall i :: 0 <= i < |r| ==> r[i] == ChatMessageItem(mine[i].id, mine[i].role, mine[i].content)
  {
    Items(MessagesOf(committed, userId))
  }

  function Items(ms: seq<Message>): (r: seq<ChatMessageItem>)
    ensures |r| == |ms| && forall i :: 0 <= i < |r| ==> r[i] == ChatMessageItem(ms[i].id, ms[i].role, ms[i].content)
  {
    if ms == [] then [] else [ChatMessageItem(ms[0].id, ms[0].role, ms[0].content)] + Items(ms[1..])
  }

  /** `s` newest first: the order of `created_at.desc()`. */
  function Reverse(s: seq<Message>): (r: seq<Message>)
    ensures |r| == |s| && forall i :: 0 <= i < |s| ==> r[i] == s[|s| - 1 - i]
  {
    if s == [] then [] else [s[|s| - 1]] + Reverse(s[..|s| - 1])
  }

  /** The last `n` elements of `s`, or all of them when there are fewer. */
  function LastN(s: seq<Message>, n: nat): (r: seq<Message>)
    ensures |r| == if |s| < n then |s| else n
  {
    if n == 0 || s == [] then [] else LastN(s[..|s| - 1], n - 1) + [s[|s| - 1]]
  }

  lemma {:induction false} LastNSuffix(s: seq<Message>, n: nat)
    ensures LastN(s, n) == s[|s| - |LastN(s, n)|..]
  {
    if n != 0 && s != [] {
      var init := s[..|s| - 1];
      LastNSuffix(init, n - 1);
      var k := |LastN(init, n - 1)|;
      assert init[|init| - k..] + [s[|s| - 1]] == s[|s| - k - 1..];
    }
  }

  /** The newest `HistoryLimit` messages of the user, oldest first. */
  function Recent(visible: seq<Message>, userId: int): seq<Message>
  {
    LastN(MessagesOf(visible, userId), HistoryLimit)
  }

  /** The message rows as model-input entries. */
  function ToWire(ms: seq<Message>): (r: seq<Wire>)
    ensures |r| == |ms| && forall i :: 0 <= i < |r| ==> r[i] == Wire(ms[i].role, ms[i].content)
  {
    if ms == [] then [] else [Wire(ms[0].role, ms[0].content)] + ToWire(ms[1..])
  }

  /** The model input: the system prompt, the recent history, then the current message. */
  function ModelInput(visible: seq<Message>, userId: int, text: string): seq<Wire> {
    [Wire(SystemRole, SystemPrompt)] + ToWire(Recent(visible, userId)) + [Wire(UserRole, text)]
  }

  /**
   * The conversation history: the newest ten of the user's messages
   * (`order_by(created_at.desc()).limit(10)`), appended to a list in
   * reversed order.
   */
  method ConversationHistory(visible: seq<Message>, userId: int) returns (history: seq<Wire>)
    ensures history == ToWire(Recent(visible, userId))
  {
    var mine := MessagesOf(visible, userId);
    var n := if |mine| < HistoryLimit then |mine| else HistoryLimit;
    var recent := Reverse(mine)[..n];
    history := [];
    var k := 0;
    while k < n
      invariant 0 <= k <= n
      invariant history == ToWire(mine[|mine| - n..][..k])
    {
      var msg := recent[n - 1 - k];
      assert msg == mine[|mine| - n..][k] by {
        ReversedWindow(mine, n, k);
      }
      HistoryStep(mine[|mine| - n..], k);
      history := history + [Wire(msg.role, msg.content)];
      k := k + 1;
    }
    assert history == ToWire(Recent(visible, userId)) by {
      RecentWindow(visible, userId);
      assert mine[|mine| - n..][..n] == mine[|mine| - n..];
    }
  }

  /** One turn of the history loop: the next entry extends the window read so far by one. */
  lemma HistoryStep(oldest: seq<Message>, k: nat)
    requires k < |oldest|
    ensures ToWire(oldest[..k]) + [Wire(oldest[k].role, oldest[k].content)] == ToWire(oldest[..k + 1])
  {
    assert oldest[..k + 1] == oldest[..k] + [oldest[k]];
    ToWireSnoc(oldest[..k], oldest[k]);
  }

  /** Reading the newest `n` backwards from position `n - 1` walks them oldest first. */
  lemma ReversedWindow(mine: seq<Message>, n: nat, k: nat)
    requires k < n <= |mine|
    ensures Reverse(mine)[..n][n - 1 - k] == mine[|mine| - n..][k]
  {
  }

  lemma ToWireSnoc(ms: seq<Message>, m: Message)
    ensures ToWire(ms + [m]) == ToWire(ms) + [Wire(m.role, m.content)]
  {
  }

  /** At most ten messages, all the user's, and the newest of them. */
  lemma RecentWindow(visible: seq<Message>, userId: int)
    ensures var mine := MessagesOf(visible, userId);
      var r := Recent(visible, userId);
      && |r| == (if |mine| < HistoryLimit then |mine| else HistoryLimit)
      && (forall i :: 0 <= i < |r| ==> r[i].userId == userId)
      && r == mine[|mine| - |r|..]
  {
    LastNSuffix(MessagesOf(visible, userId), HistoryLimit);
  }

  /**
   * The flushed user message is the newest row of the log, so it is the last
   * history entry as well as the final entry of the model input.
   */
  lemma ModelInputShape(committed: seq<Message>, userId: int, id: int, text: string)
    ensures var input := ModelInput(committed + [Message(id, userId, UserRole, text)], userId, text);
      && 3 <= |input| <= HistoryLimit + 2
      && input[0] == Wire(SystemRole, SystemPrompt)
      && input[|input| - 1] == Wire(UserRole, text)
      && input[|input| - 2] == Wire(UserRole, text)
      && input[1..|input| - 1] == ToWire(Recent(committed + [Message(id, userId, UserRole, text)], userId))
  {
    var m := Message(id, userId, UserRole, text);
    MessagesOfAppend(committed, [m], userId);
    MessagesOfOwn([m], userId, userId + 1);
    var r := Recent(committed + [m], userId);
    var input := ModelInput(committed + [m], userId, text);
    assert input == [Wire(SystemRole, SystemPrompt)] + ToWire(r) + [Wire(UserRole, text)];
    assert r[|r| - 1] == m;
    assert input[|input| - 2] == ToWire(r)[|r| - 1];
    assert input[1..|input| - 1] == ToWire(r);
  }

  // ---------------------------------------------------------------------------
  // The client cache

  /**
   * `get_openai_client`: the cached client when there is one; otherwise none
   * for a blank key or when construction raises (`fails`); otherwise a new
   * client. The result is also the new cache content.
   */
  function ClientSpec(cached: Option<Client>, apiKey: string, fails: bool): (c: Option<Client>)
    ensures cached.Some? ==> c == cached
    ensures cached.None? ==> (c.Some? <==> !IsBlank(Python, apiKey) && !fails)
    ensures c.Some? && cached.None? ==> c.value.apiKey == apiKey
  {
    if cached.Some? then cached
    else if IsBlank(Python, apiKey) then None
    else if fails then None
    else Some(Client(apiKey))
  }

  /** Once a client is built, later calls return it whatever the key and whatever would fail. */
  lemma ClientCachedForever(apiKey: string, apiKey2: string, fails2: bool)
    requires !IsBlank(Python, apiKey)
    ensures var c := ClientSpec(None, apiKey, false);
      c == Some(Client(apiKey)) && ClientSpec(c, apiKey2, fails2) == c
  {
  }

  /** The process-wide `_client`. */
  class ClientCache {
    var client: Option<Client>

    constructor ()
      ensures client.None?
    {
      client := None;
    }

    method GetOpenAiClient(apiKey: string, fails: bool) returns (c: Option<Client>)
      modifies this
      ensures c == ClientSpec(old(client), apiKey, fails) && client == c
    {
      if client.Some? {
        return client;
      }
      if IsBlank(Python, apiKey) {
        return None;
      }
      if fails {
        return None;
      }
      client := Some(Client(apiKey));
      c := client;
    }
  }

  // ---------------------------------------------------------------------------
  // The session

  /**
   * A database session over the message log: committed rows, rows added in
   * this session and not yet committed, and the id sequence (ids are drawn
   * when a row is added and flushed, and a rollback does not give them back).
   */
  class ChatSession {
    var committed: seq<Message>
    var pending: seq<Message>
    var nextId: int

    constructor (log: seq<Message>, nextId0: int)
      ensures committed == log && pending == [] && nextId == nextId0
    {
      committed := log;
      pending := [];
      nextId := nextId0;
    }

    /** What this session's queries see: its own flushed rows included. */
    function Visible(): seq<Message>
      reads this
    {
      committed + pending
    }

    /** `db.add(row)` and the flush that gives it an id. */
    method Add(userId: int, role: Role, content: string) returns (m: Message)
      modifies this
      ensures m == Message(old(nextId), userId, role, content)
      ensures pending == old(pending) + [m] && committed == old(committed) && nextId == old(nextId) + 1
    {
      m := Message(nextId, userId, role, content);
      pending := pending + [m];
      nextId := nextId + 1;
    }

    /** `db.commit()`. */
    method Commit()
      modifies this
      ensures committed == old(committed) + old(pending) && pending == [] && nextId == old(nextId)
    {
      committed := committed + pending;
      pending := [];
    }

    /** `db.rollback()`. */
    method Rollback()
      modifies this
      ensures committed == old(committed) && pending == [] && nextId == old(nextId)
    {
      pending := [];
    }
  }

  // ---------------------------------------------------------------------------
  // POST /chat/message

  /** What a chat request answers, the log it leaves, the next id and the client cache. */
  datatype ChatOutcome = ChatOutcome(result: Result<string, HttpError>, committed: seq<Message>, nextId: int, client: Option<Client>)

  /**
   * The part of `chat_message` after the model call: `userMessage` is flushed
   * under `nextId`, the assistant row would take the id after it.
   */
  function Answer(committed: seq<Message>, userMessage: Message, nextId: int, client: Option<Client>, reply: AiReply)
    : (o: ChatOutcome)
    ensures committed <= o.committed && o.client == client
    ensures o.result.Ok? <==> reply.Reply? && reply.text != []
    ensures o.result.Ok? ==>
      |o.committed| == |committed| + 2 && o.committed[|committed|] == userMessage
      && o.committed[|committed| + 1].role == AssistantRole && o.committed[|committed| + 1].content == o.result.value
    ensures reply.Raised? ==>
      |o.committed| == |committed| + 1 && o.committed[|committed|].role == AssistantRole
  {
    match reply
    case Reply(t) =>
      if t == [] then ChatOutcome(Err(NoResponse), committed, nextId + 1, client)
      else ChatOutcome(Ok(t), committed + [userMessage, Message(nextId + 1, userMessage.userId, AssistantRole, t)], nextId + 2, client)
    case Raised(e) =>
      ChatOutcome(Err(Failed(e)), committed + [Message(nextId + 1, userMessage.userId, AssistantRole, ErrorReply(e))], nextId + 2, client)
  }

  /** The row that stores the question: the stripped message under the next id. */
  function Question(nextId: int, userId: int, message: string): Message {
    Message(nextId, userId, UserRole, Trim(Python, message))
  }

  /** What the model answers to the input built once the question is flushed. */
  function ModelReply(committed: seq<Message>, nextId: int, userId: int, message: string, ai: seq<Wire> -> AiReply): AiReply {
    ai(ModelInput(committed + [Question(nextId, userId, message)], userId, Trim(Python, message)))
  }

  /**
   * `chat_message` as a function of the committed log, the id sequence and
   * the cache, given the model's `reply` (read only when the model is called).
   */
  function ChatSpec(committed: seq<Message>, nextId: int, cached: Option<Client>, userId: int,
                    message: string, apiKey: string, fails: bool, reply: AiReply): (o: ChatOutcome)
    ensures IsBlank(Python, message) ==> o == ChatOutcome(Err(EmptyMessage), committed, nextId, cached)
    ensures committed <= o.committed && |o.committed| <= |committed| + 2
    ensures o.result.Ok? ==> |o.committed| == |committed| + 2 && o.committed[|committed|] == Question(nextId, userId, message)
  {
    if IsBlank(Python, message) then ChatOutcome(Err(EmptyMessage), committed, nextId, cached)
    else
      var userMessage := Question(nextId, userId, message);
      var client := ClientSpec(cached, apiKey, fails);
      if client.None? then
        ChatOutcome(Err(NotConfigured),
          committed + [userMessage, Message(nextId + 1, userId, AssistantRole, NotConfiguredText)], nextId + 2, client)
      else
        Answer(committed, userMessage, nextId, client, reply)
  }

  /** The request's flow over a fresh session and the process's client cache. */
  method ChatMessage(session: ChatSession, cache: ClientCache, userId: int, message: string,
                     s: Settings, fails: bool, ai: seq<Wire> -> AiReply) returns (r: Result<string, HttpError>)
    requires session.pending == []
    modifies session, cache
    ensures var reply := ModelReply(old(session.committed), old(session.nextId), userId, message, ai);
      ChatOutcome(r, session.committed, session.nextId, cache.client)
        == ChatSpec(old(session.committed), old(session.nextId), old(cache.client), userId, message, s.openAiApiKey, fails, reply)
    ensures session.pending == []
  {
    if IsBlank(Python, message) {
      return Err(EmptyMessage);
    }
    r := Process(session, cache, userId, message, s, fails, ai);
  }

  /** `chat_message` past the emptiness check. */
  method Process(session: ChatSession, cache: ClientCache, userId: int, message: string,
                 s: Settings, fails: bool, ai: seq<Wire> -> AiReply) returns (r: Result<string, HttpError>)
    requires session.pending == [] && !IsBlank(Python, message)
    modifies session, cache
    ensures var reply := ModelReply(old(session.committed), old(session.nextId), userId, message, ai);
      ChatOutcome(r, session.committed, session.nextId, cache.client)
        == ChatSpec(old(session.committed), old(session.nextId), old(cache.client), userId, message, s.openAiApiKey, fails, reply)
    ensures session.pending == []
  {
    ghost var committed0, nextId0, cached0 := session.committed, session.nextId, cache.client;
    var text := Trim(Python, message);
    var userMessage := session.Add(userId, UserRole, text);
    var client := cache.GetOpenAiClient(s.openAiApiKey, fails);
    ghost var reply := ModelReply(committed0, nextId0, userId, message, ai);
    if client.None? {
      NoClientPath(committed0, nextId0, cached0, userId, message, s.openAiApiKey, fails, reply);
      r := Unconfigured(session, userMessage);
    } else {
      ModelPath(committed0, nextId0, cached0, userId, message, s.openAiApiKey, fails, ai);
      assert userMessage == Question(nextId0, userId, message) && session.committed == committed0;
      r := AskModel(session, userMessage, client, ai, reply);
    }
  }

  /** No client: store the fixed notice, commit it with the question, answer 503. */
  method Unconfigured(session: ChatSession, userMessage: Message) returns (r: Result<string, HttpError>)
    requires session.pending == [userMessage] && userMessage.id + 1 == session.nextId
    modifies session
    ensures r == Err(NotConfigured) && session.pending == [] && session.nextId == old(session.nextId) + 1
    ensures session.committed == old(session.committed) + [userMessage, Message(userMessage.id + 1, userMessage.userId, AssistantRole, NotConfiguredText)]
  {
    var _ := session.Add(userMessage.userId, AssistantRole, NotConfiguredText);
    session.Commit();
    r := Err(NotConfigured);
  }

  /** History, model input, model call and `Respond`, once the question is flushed. */
  method AskModel(session: ChatSession, userMessage: Message, client: Option<Client>, ai: seq<Wire> -> AiReply,
                  ghost reply: AiReply) returns (r: Result<string, HttpError>)
    requires session.pending == [userMessage] && userMessage.id + 1 == session.nextId
    requires reply == ai(ModelInput(session.committed + [userMessage], userMessage.userId, userMessage.content))
    modifies session
    ensures ChatOutcome(r, session.committed, session.nextId, client) == Answer(old(session.committed), userMessage, userMessage.id, client, reply)
    ensures session.pending == []
  {
    var history := ConversationHistory(session.Visible(), userMessage.userId);
    var messages := [Wire(SystemRole, SystemPrompt)] + history + [Wire(UserRole, userMessage.content)];
    r := Respond(session, userMessage, ai(messages));
  }

  /** Without a client the question and the fixed assistant notice are stored, whatever the model would say. */
  lemma NoClientPath(committed: seq<Message>, nextId: int, cached: Option<Client>, userId: int,
                     message: string, apiKey: string, fails: bool, reply: AiReply)
    requires !IsBlank(Python, message) && ClientSpec(cached, apiKey, fails).None?
    ensures ChatSpec(committed, nextId, cached, userId, message, apiKey, fails, reply)
         == ChatOutcome(Err(NotConfigured),
              committed + [Question(nextId, userId, message), Message(nextId + 1, userId, AssistantRole, NotConfiguredText)],
              nextId + 2, None)
  {
  }

  /** Once a client exists, the outcome is the answer to the model's reply to the built input. */
  lemma ModelPath(committed: seq<Message>, nextId: int, cached: Option<Client>, userId: int,
                  message: string, apiKey: string, fails: bool, ai: seq<Wire> -> AiReply)
    requires !IsBlank(Python, message) && ClientSpec(cached, apiKey, fails).Some?
    ensures var q := Question(nextId, userId, message);
      var reply := ModelReply(committed, nextId, userId, message, ai);
      && reply == ai(ModelInput(committed + [q], userId, q.content))
      && ChatSpec(committed, nextId, cached, userId, message, apiKey, fails, reply)
         == Answer(committed, Question(nextId, userId, message), nextId, ClientSpec(cached, apiKey, fails), reply)
  {
  }

  /**
   * The `try` block after the model call: an empty reply raises (rollback,
   * nothing persists); a reply is stored and committed with the question; an
   * exception rolls back and commits only an apology.
   */
  method Respond(session: ChatSession, userMessage: Message, reply: AiReply) returns (r: Result<string, HttpError>)
    requires session.pending == [userMessage] && userMessage.id + 1 == session.nextId
    modifies session
    ensures var o := Answer(old(session.committed), userMessage, userMessage.id, None, reply);
      r == o.result && session.committed == o.committed && session.nextId == o.nextId && session.pending == []
  {
    match reply
    case Reply(t) =>
      if t == [] {
        session.Rollback();
        return Err(NoResponse);
      }
      var _ := session.Add(userMessage.userId, AssistantRole, t);
      session.Commit();
      r := Ok(t);
    case Raised(e) =>
      session.Rollback();
      var _ := session.Add(userMessage.userId, AssistantRole, ErrorReply(e));
      session.Commit();
      r := Err(Failed(e));
  }

  // ---------------------------------------------------------------------------
  // What persists

  /** The roles of the rows a request added to the log. */
  function Roles(ms: seq<Message>): (r: seq<Role>)
    ensures |r| == |ms| && forall i :: 0 <= i < |r| ==> r[i] == ms[i].role
  {
    if ms == [] then [] else [ms[0].role] + Roles(ms[1..])
  }

  /** The five ways a request ends. */
  datatype ChatPath = BlankMessage | NoClient | EmptyReply | Answered(text: string) | Crashed(error: string)

  /** Which way a request goes. */
  function PathOf(cached: Option<Client>, message: string, apiKey: string, fails: bool, reply: AiReply): ChatPath {
    if IsBlank(Python, message) then BlankMessage
    else if ClientSpec(cached, apiKey, fails).None? then NoClient
    else ReplyPath(reply)
  }

  /** Which way a request with a client goes, by the model's reply. */
  function ReplyPath(reply: AiReply): ChatPath {
    match reply
    case Reply(t) => if t == [] then EmptyReply else Answered(t)
    case Raised(e) => Crashed(e)
  }

  /** The rows a request leaves committed, given its question row `q`. */
  function AddedRows(p: ChatPath, q: Message): seq<Message> {
    match p
    case BlankMessage => []
    case NoClient => [q, Message(q.id + 1, q.userId, AssistantRole, NotConfiguredText)]
    case EmptyReply => []
    case Answered(t) => [q, Message(q.id + 1, q.userId, AssistantRole, t)]
    case Crashed(e) => [Message(q.id + 1, q.userId, AssistantRole, ErrorReply(e))]
  }

  /** What a request answers on each way. */
  function PathResult(p: ChatPath): Result<string, HttpError> {
    match p
    case BlankMessage => Err(EmptyMessage)
    case NoClient => Err(NotConfigured)
    case EmptyReply => Err(NoResponse)
    case Answered(t) => Ok(t)
    case Crashed(e) => Err(Failed(e))
  }

  /**
   * The outcome table of `chat_message`: the answer and the committed rows
   * on each of the five ways through it.
   */
  lemma ChatByPath(committed: seq<Message>, nextId: int, cached: Option<Client>, userId: int,
                   message: string, apiKey: string, fails: bool, reply: AiReply)
    ensures var o := ChatSpec(committed, nextId, cached, userId, message, apiKey, fails, reply);
      var p := PathOf(cached, message, apiKey, fails, reply);
      var added := AddedRows(p, Question(nextId, userId, message));
      && o.result == PathResult(p)
      && o.committed == committed + added
      && o.committed[|committed|..] == added
  {
    if IsBlank(Python, message) {
      BlankByPath(committed, nextId, cached, userId, message, apiKey, fails, reply);
    } else if ClientSpec(cached, apiKey, fails).None? {
      NoClientByPath(committed, nextId, cached, userId, message, apiKey, fails, reply);
    } else {
      ModelByPath(committed, nextId, cached, userId, message, apiKey, fails, reply);
    }
    SliceOfAppend(committed, AddedRows(PathOf(cached, message, apiKey, fails, reply), Question(nextId, userId, message)));
  }

  /** The outcome of a request agrees with the table entry of its way. */
  predicate FollowsPath(committed: seq<Message>, nextId: int, cached: Option<Client>, userId: int,
                        message: string, apiKey: string, fails: bool, reply: AiReply)
  {
    var o := ChatSpec(committed, nextId, cached, userId, message, apiKey, fails, reply);
    var p := PathOf(cached, message, apiKey, fails, reply);
    o.result == PathResult(p) && o.committed == committed + AddedRows(p, Question(nextId, userId, message))
  }

  lemma BlankByPath(committed: seq<Message>, nextId: int, cached: Option<Client>, userId: int,
                    message: string, apiKey: string, fails: bool, reply: AiReply)
    requires IsBlank(Python, message)
    ensures FollowsPath(committed, nextId, cached, userId, message, apiKey, fails, reply)
  {
    assert committed + [] == committed;
  }

  lemma NoClientByPath(committed: seq<Message>, nextId: int, cached: Option<Client>, userId: int,
                       message: string, apiKey: string, fails: bool, reply: AiReply)
    requires !IsBlank(Python, message) && ClientSpec(cached, apiKey, fails).None?
    ensures FollowsPath(committed, nextId, cached, userId, message, apiKey, fails, reply)
  {
    NoClientPath(committed, nextId, cached, userId, message, apiKey, fails, reply);
  }

  lemma ModelByPath(committed: seq<Message>, nextId: int, cached: Option<Client>, userId: int,
                    message: string, apiKey: string, fails: bool, reply: AiReply)
    requires !IsBlank(Python, message) && ClientSpec(cached, apiKey, fails).Some?
    ensures FollowsPath(committed, nextId, cached, userId, message, apiKey, fails, reply)
  {
    ChatAnswers(committed, nextId, cached, userId, message, apiKey, fails, reply);
    AnswerByReply(committed, Question(nextId, userId, message), ClientSpec(cached, apiKey, fails), reply);
  }

  lemma SliceOfAppend<T>(a: seq<T>, b: seq<T>)
    ensures (a + b)[|a|..] == b
  {
  }

  /** With a client, the request's outcome is the answer to the reply. */
  lemma ChatAnswers(committed: seq<Message>, nextId: int, cached: Option<Client>, userId: int,
                    message: string, apiKey: string, fails: bool, reply: AiReply)
    requires !IsBlank(Python, message) && ClientSpec(cached, apiKey, fails).Some?
    ensures ChatSpec(committed, nextId, cached, userId, message, apiKey, fails, reply)
         == Answer(committed, Question(nextId, userId, message), nextId, ClientSpec(cached, apiKey, fails), reply)
  {
  }

  /** The answer's part of the outcome table. */
  lemma AnswerByReply(committed: seq<Message>, q: Message, client: Option<Client>, reply: AiReply)
    ensures var o := Answer(committed, q, q.id, client, reply);
      o.result == PathResult(ReplyPath(reply)) && o.committed == committed + AddedRows(ReplyPath(reply), q)
  {
    if reply.Reply? && reply.text == [] {
      assert committed + [] == committed;
    }
  }

  /** The question and an answer both persist exactly on success and on 503. */
  lemma ChatStoresExchange(committed: seq<Message>, nextId: int, cached: Option<Client>, userId: int,
      message: string, apiKey: string, fails: bool, reply: AiReply)
    ensures var o := ChatSpec(committed, nextId, cached, userId, message, apiKey, fails, reply);
      var added := o.committed[|committed|..];
      Roles(added) == [UserRole, AssistantRole] <==> o.result.Ok? || o.result.error.status == 503
  {
    ChatByPath(committed, nextId, cached, userId, message, apiKey, fails, reply);
    ExchangeByPath(PathOf(cached, message, apiKey, fails, reply), Question(nextId, userId, message));
  }

  lemma ExchangeByPath(p: ChatPath, q: Message)
    requires q.role == UserRole
    ensures Roles(AddedRows(p, q)) == [UserRole, AssistantRole] <==> p.NoClient? || p.Answered?
    ensures PathResult(p).Ok? || PathResult(p).error.status == 503 <==> p.NoClient? || p.Answered?
  {
    var added := AddedRows(p, q);
    if p.NoClient? || p.Answered? {
      assert Roles(added) == [added[0].role, added[1].role];
    } else if p.Crashed? {
      assert |Roles(added)| == 1;
    }
  }

  /** Nothing persists exactly for a blank message and for an empty reply. */
  lemma ChatStoresNothing(committed: seq<Message>, nextId: int, cached: Option<Client>, userId: int,
      message: string, apiKey: string, fails: bool, reply: AiReply)
    ensures var o := ChatSpec(committed, nextId, cached, userId, message, apiKey, fails, reply);
      var added := o.committed[|committed|..];
      added == [] <==> o.result == Err(EmptyMessage) || o.result == Err(NoResponse)
  {
    ChatByPath(committed, nextId, cached, userId, message, apiKey, fails, reply);
    NothingByPath(PathOf(cached, message, apiKey, fails, reply), Question(nextId, userId, message));
  }

  lemma NothingByPath(p: ChatPath, q: Message)
    ensures AddedRows(p, q) == [] <==> p.BlankMessage? || p.EmptyReply?
    ensures PathResult(p) == Err(EmptyMessage) || PathResult(p) == Err(NoResponse) <==> p.BlankMessage? || p.EmptyReply?
  {
    if p.Crashed? {
      FailedIsNotNoResponse(p.error);
    }
  }

  /** After an exception from the model only the assistant's apology persists. */
  lemma ChatStoresApology(committed: seq<Message>, nextId: int, cached: Option<Client>, userId: int,
      message: string, apiKey: string, fails: bool, reply: AiReply)
    ensures var o := ChatSpec(committed, nextId, cached, userId, message, apiKey, fails, reply);
      var added := o.committed[|committed|..];
      Roles(added) == [AssistantRole] <==> o.result.Err? && o.result.error.status == 500 && o.result != Err(NoResponse)
  {
    ChatByPath(committed, nextId, cached, userId, message, apiKey, fails, reply);
    ApologyByPath(PathOf(cached, message, apiKey, fails, reply), Question(nextId, userId, message));
  }

  lemma ApologyByPath(p: ChatPath, q: Message)
    ensures Roles(AddedRows(p, q)) == [AssistantRole] <==> p.Crashed?
    ensures PathResult(p).Err? && PathResult(p).error.status == 500 && PathResult(p) != Err(NoResponse) <==> p.Crashed?
  {
    if p.Crashed? {
      FailedIsNotNoResponse(p.error);
    }
  }

  /** The 500 of an exception is never the 500 of an empty reply. */
  lemma FailedIsNotNoResponse(e: string)
    ensures Failed(e) != NoResponse
  {
    assert Failed(e).detail[0] == 'F' && NoResponse.detail[0] == 'N';
  }

  /** The log only grows, and only by rows of the caller. */
  lemma ChatAppendOnly(committed: seq<Message>, nextId: int, cached: Option<Client>, userId: int,
                       message: string, apiKey: string, fails: bool, reply: AiReply)
    ensures var o := ChatSpec(committed, nextId, cached, userId, message, apiKey, fails, reply);
      var added := o.committed[|committed|..];
      && committed <= o.committed
      && (forall i :: 0 <= i < |added| ==> added[i].userId == userId)
  {
    ChatByPath(committed, nextId, cached, userId, message, apiKey, fails, reply);
    OwnRowsByPath(PathOf(cached, message, apiKey, fails, reply), Question(nextId, userId, message));
  }

  lemma OwnRowsByPath(p: ChatPath, q: Message)
    ensures forall i :: 0 <= i < |AddedRows(p, q)| ==> AddedRows(p, q)[i].userId == q.userId
    ensures forall i :: 0 <= i < |AddedRows(p, q)| && AddedRows(p, q)[i].role == UserRole ==> AddedRows(p, q)[i] == q
  {
  }

  /**
   * A blank message is refused before anything is stored or any client is
   * built; otherwise the stored question is the stripped message.
   */
  lemma ChatStoresStrippedQuestion(committed: seq<Message>, nextId: int, cached: Option<Client>, userId: int,
                                   message: string, apiKey: string, fails: bool, reply: AiReply)
    ensures var o := ChatSpec(committed, nextId, cached, userId, message, apiKey, fails, reply);
      && (IsBlank(Python, message) <==> o.result == Err(EmptyMessage))
      && (IsBlank(Python, message) ==> o.committed == committed && o.nextId == nextId && o.client == cached)
      && (forall m :: m in o.committed[|committed|..] && m.role == UserRole ==> m.content == Trim(Python, message) && m.content != [])
  {
    ChatByPath(committed, nextId, cached, userId, message, apiKey, fails, reply);
    var p := PathOf(cached, message, apiKey, fails, reply);
    var q := Question(nextId, userId, message);
    OwnRowsByPath(p, q);
    assert PathResult(p) == Err(EmptyMessage) <==> p.BlankMessage?;
    assert forall m :: m in AddedRows(p, q) && m.role == UserRole ==> m == q;
  }

  /** A success answers with the model's non-empty text and stores exactly the question and that text. */
  lemma ChatOkShape(committed: seq<Message>, nextId: int, cached: Option<Client>, userId: int,
                    message: string, apiKey: string, fails: bool, reply: AiReply)
    ensures var o := ChatSpec(committed, nextId, cached, userId, message, apiKey, fails, reply);
      o.result.Ok? ==>
        && reply == Reply(o.result.value) && o.result.value != []
        && o.committed == committed + [Question(nextId, userId, message), Message(nextId + 1, userId, AssistantRole, o.result.value)]
  {
    if !IsBlank(Python, message) && ClientSpec(cached, apiKey, fails).Some? {
      var client := ClientSpec(cached, apiKey, fails);
      assert ChatSpec(committed, nextId, cached, userId, message, apiKey, fails, reply)
        == Answer(committed, Question(nextId, userId, message), nextId, client, reply);
    }
  }

  /** A successful request shows up, question then answer, at the end of the user's listing. */
  lemma ChatThenRead(committed: seq<Message>, nextId: int, cached: Option<Client>, userId: int,
                     message: string, apiKey: string, fails: bool, reply: AiReply)
    ensures var o := ChatSpec(committed, nextId, cached, userId, message, apiKey, fails, reply);
      o.result.Ok? ==>
        GetChatMessages(o.committed, userId) == GetChatMessages(committed, userId)
          + [ChatMessageItem(nextId, UserRole, Trim(Python, message)), ChatMessageItem(nextId + 1, AssistantRole, o.result.value)]
  {
    var o := ChatSpec(committed, nextId, cached, userId, message, apiKey, fails, reply);
    ChatOkShape(committed, nextId, cached, userId, message, apiKey, fails, reply);
    if o.result.Ok? {
      ReadAfterExchange(committed, Question(nextId, userId, message), Message(nextId + 1, userId, AssistantRole, o.result.value));
    }
  }

  /** Two rows of one user appended to the log end that user's listing. */
  lemma ReadAfterExchange(committed: seq<Message>, q: Message, a: Message)
    requires q.userId == a.userId
    ensures GetChatMessages(committed + [q, a], q.userId)
         == GetChatMessages(committed, q.userId) + [ChatMessageItem(q.id, q.role, q.content), ChatMessageItem(a.id, a.role, a.content)]
  {
    var mine := MessagesOf(committed, q.userId);
    assert MessagesOf(committed + [q, a], q.userId) == mine + [q, a] by {
      AppendOwn(committed, [q, a], q.userId, q.userId + 1);
    }
    ItemsAppend(mine, [q, a]);
    ItemsPair(q, a);
  }

  lemma ItemsPair(q: Message, a: Message)
    ensures Items([q, a]) == [ChatMessageItem(q.id, q.role, q.content), ChatMessageItem(a.id, a.role, a.content)]
  {
  }

  /** No request changes another user's listing. */
  lemma ChatKeepsOthers(committed: seq<Message>, nextId: int, cached: Option<Client>, userId: int, other: int,
                        message: string, apiKey: string, fails: bool, reply: AiReply)
    requires other != userId
    ensures var o := ChatSpec(committed, nextId, cached, userId, message, apiKey, fails, reply);
      GetChatMessages(o.committed, other) == GetChatMessages(committed, other)
  {
    var o := ChatSpec(committed, nextId, cached, userId, message, apiKey, fails, reply);
    ChatAppendOnly(committed, nextId, cached, userId, message, apiKey, fails, reply);
    var added := o.committed[|committed|..];
    assert o.committed == committed + added;
    AppendOwn(committed, added, userId, other);
  }

  /** Rows of `userId` appended to a log: `userId`'s listing gains them, nobody else's changes. */
  lemma AppendOwn(committed: seq<Message>, added: seq<Message>, userId: int, other: int)
    requires other != userId && forall i :: 0 <= i < |added| ==> added[i].userId == userId
    ensures MessagesOf(committed + added, userId) == MessagesOf(committed, userId) + added
    ensures MessagesOf(committed + added, other) == MessagesOf(committed, other)
  {
    MessagesOfAppend(committed, added, userId);
    MessagesOfAppend(committed, added, other);
    MessagesOfOwn(added, userId, other);
    assert MessagesOf(committed, other) + [] == MessagesOf(committed, other);
  }

  lemma ItemsAppend(a: seq<Message>, b: seq<Message>)
    ensures Items(a + b) == Items(a) + Items(b)
  {
  }
}
