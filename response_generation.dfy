/** Prompt assembly for the AI tutor, as both packages do it: pick the latest
    messages of a conversation, retrieve course context for the newest student
    message, and hand the language model a prompt. The first package sends one
    text prompt with the history rendered inside it; the second sends the
    history as a list of role-tagged contents followed by the prompt. The
    language model, the embedder and the distance are parameters. */
module ResponseGeneration {
  import opened Schema
  import opened Sorting
  import opened Text
  import Retriever

  const CHARACTERS_PER_TOKEN: int := 4
  const MAX_TOKENS_PER_INTERACTION: int := 10000
  const MAX_RESPONSE_TOKENS: int := 2000
  /** Declared by both packages and enforced by neither. */
  const MAX_CHARACTERS_PER_REQUEST: int := (MAX_TOKENS_PER_INTERACTION - MAX_RESPONSE_TOKENS) * CHARACTERS_PER_TOKEN

  /** Default `history` argument and the fixed retrieval size. */
  const DEFAULT_HISTORY: nat := 5
  const NUM_SEGMENTS: nat := 8

  const NO_CONVERSATION_ERROR: string := "conversation should not be None."

  const UCR_DIRECTIVE: string :=
    "# Main directive\n"
    + "You are a helpful student tutor "
    + "for a university computer science "
    + "course. You must assist students "
    + "in their learning by answering "
    + "question in a didactically useful "
    + "way. You should only answer "
    + "questions if you are certain "
    + "that you know the correct answer.\n"
    + "You will be given context that "
    + "may or may not be useful for "
    + "answering the student's question "
    + "followed by the question. Again, "
    + "only answer the question if "
    + "you are certain that you have "
    + "a correct answer. The conversation "
    + "history for the last 10 messages "
    + "is also provided. \n"
    + "Never explicitly say that you "
    + "got information from the context "
    + "or the references/numbers they "
    + "come from, or tell students "
    + "to reference document numbers. "
    + "Only answer the students questions "
    + "as if the information is coming "
    + "from you.\n"
    + "Your main priority is being "
    + "a tutor, and instead of giving "
    + "direct answers most of the time, "
    + "focus on teaching students and "
    + "leading them to the answer themselves.\n"
    + "\n"
    + "If the context is not relevant, "
    + "or if it is not a follow up "
    + "question, then you should tell "
    + "the student, \"I cannot find "
    + "any relevant course materials "
    + "to help answer your question.\"\n"
    + "\n"

  const WLU_DIRECTIVE: string :=
    "# Main directive\n"
    + "You are a helpful student tutor "
    + "for a university statistics. "
    + "You must assist students in "
    + "their learning by answering "
    + "question in a didactically useful "
    + "way. You should only answer "
    + "questions if you are certain "
    + "that you know the correct answer.\n"
    + "You will be given context that "
    + "may or may not be useful for "
    + "answering the student's question "
    + "followed by the question. Again, "
    + "only answer the question if "
    + "you are certain that you have "
    + "a correct answer.\n"
    + "Never explicitly say that you "
    + "got information from the context "
    + "or the references/numbers they "
    + "come from, or tell students "
    + "to reference document numbers. "
    + "Only answer the students questions "
    + "as if the information is coming "
    + "from you.\n"
    + "Your main priority is being "
    + "a tutor, so answer pointed and "
    + "direct questions but ask clarifying "
    + "questions when a student asks "
    + "a vague question. Lead to the "
    + "student toward the correct answer "
    + "in such cases.\n"
    + "\n"
    + "If the context is not relevant, "
    + "and if it is not a follow up "
    + "question, then you should tell "
    + "the student, \"I cannot find "
    + "any relevant course materials "
    + "to help answer your question.\"\n"
    + "\n"

  /** The first package's `SYSTEM_PROMPT.format(context, question, history)`. */
  function UcrPrompt(context: string, history: string, question: string): string
  {
    UCR_DIRECTIVE + "## Context\n" + context + "\n\n## History\n" + history + "\n\n## Question\n" + question + "\n"
  }

  /** The second package's template has no history slot. */
  function WluPrompt(context: string, question: string): string
  {
    WLU_DIRECTIVE + "## Context\n" + context + "\n\n## Question\n" + question + "\n"
  }

  function Timestamp(m: Message): int
  {
    m.timestamp
  }

  /** The rows of one conversation, in table order. */
  function ConversationMessages(msgs: seq<Message>, convId: nat): (r: seq<Message>)
    ensures |r| <= |msgs|
    ensures forall m :: m in r <==> m in msgs && m.conversationId == convId
    ensures forall k :: 0 <= k < |r| ==> r[k].conversationId == convId
  {
    if msgs == [] then []
    else
      var init := msgs[..|msgs| - 1];
      var last := msgs[|msgs| - 1];
      assert msgs == init + [last];
      ConversationMessages(init, convId) + (if last.conversationId == convId then [last] else [])
  }

  /** Adding a row of another conversation leaves a conversation's rows alone;
      adding one of its own appends it. */
  lemma ConversationMessagesAppend(msgs: seq<Message>, m: Message, convId: nat)
    ensures ConversationMessages(msgs + [m], convId)
         == ConversationMessages(msgs, convId) + (if m.conversationId == convId then [m] else [])
  {
    assert (msgs + [m])[..|msgs|] == msgs;
  }

  /** The conversation's messages oldest first (`ORDER BY timestamp`). */
  function Chronological(msgs: seq<Message>, convId: nat): seq<Message>
  {
    SortBy(ConversationMessages(msgs, convId), Timestamp)
  }

  /** The window as the query builds it: newest first (`ORDER BY timestamp
      DESC`), cut to `history + 1` rows, then reversed in place. */
  function Window(msgs: seq<Message>, convId: nat, history: nat): seq<Message>
  {
    var newestFirst := Reverse(Chronological(msgs, convId));
    Reverse(newestFirst[..Min(history + 1, |newestFirst|)])
  }

  /** The window is the last `history + 1` messages of the conversation in
      ascending time: a suffix of the chronological order of that length. */
  lemma WindowIsSuffix(msgs: seq<Message>, convId: nat, history: nat)
    ensures var all := Chronological(msgs, convId);
      var w := Window(msgs, convId, history);
      && |w| == Min(history + 1, |all|)
      && w == all[|all| - |w|..]
      && SortedBy(w, Timestamp)
  {
    ReverseTakeReverse(Chronological(msgs, convId), history + 1);
  }

  /** Every message of the window belongs to the conversation. */
  lemma WindowMembers(msgs: seq<Message>, convId: nat, history: nat)
    ensures forall m :: m in Window(msgs, convId, history) ==> m in msgs && m.conversationId == convId
  {
    var all := Chronological(msgs, convId);
    var w := Window(msgs, convId, history);
    WindowIsSuffix(msgs, convId, history);
    forall m | m in w
      ensures m in msgs && m.conversationId == convId
    {
      assert m in multiset(all);
    }
  }

  /** Every message of the conversation left out of the window is no newer
      than the window's first, and the window's last message is the newest of
      the conversation. */
  lemma WindowIsLatest(msgs: seq<Message>, convId: nat, history: nat, m: Message)
    requires m in msgs && m.conversationId == convId
    ensures var w := Window(msgs, convId, history);
      && |w| > 0
      && m.timestamp <= w[|w| - 1].timestamp
      && (m !in w ==> m.timestamp <= w[0].timestamp)
  {
    var all := Chronological(msgs, convId);
    var w := Window(msgs, convId, history);
    WindowIsSuffix(msgs, convId, history);
    var start := |all| - |w|;
    assert m in ConversationMessages(msgs, convId);
    assert m in multiset(all);
    var k :| 0 <= k < |all| && all[k] == m;
    assert |w| > 0;
    assert w[|w| - 1] == all[|all| - 1];
    assert Timestamp(all[k]) <= Timestamp(all[|all| - 1]);
    if m !in w {
      assert k < start;
      assert w[0] == all[start];
      assert Timestamp(all[k]) <= Timestamp(all[start]);
    }
  }

  /** The sender label the first package puts on a history entry. */
  function Sender(t: MessageType): string
  {
    match t
    case StudentMessage => "Student"
    case BotMessage => "Bot"
    case AssistantMessage => "Human Assistant"
  }

  /** `message_to_history` of the first package. */
  function MessageToHistory(m: Message): string
  {
    "### " + Sender(m.mtype) + "\n" + m.body
  }

  /** Reads a history entry back into its sender label and body. */
  function ParseHistoryEntry(h: string): Option<(string, string)>
  {
    if |h| < 4 || h[..4] != "### " then None
    else
      var rest := h[4..];
      var i := IndexOf(rest, '\n');
      if i < 0 then None else Some((rest[..i], rest[i + 1..]))
  }

  /** A history entry names its sender, which tells the three kinds apart,
      and carries the body unchanged. */
  lemma MessageToHistoryRoundTrip(m: Message)
    ensures ParseHistoryEntry(MessageToHistory(m)) == Some((Sender(m.mtype), m.body))
    ensures forall n: Message :: Sender(n.mtype) == Sender(m.mtype) ==> n.mtype == m.mtype
  {
    var h := MessageToHistory(m);
    var rest := h[4..];
    assert rest == Sender(m.mtype) + "\n" + m.body;
    var s := Sender(m.mtype);
    assert '\n' !in s;
    assert rest[|s|] == '\n';
    assert rest[..|s|] == s;
  }

  /** The entries of the first package's history block, one per earlier
      window message, in window order. */
  function UcrHistoryEntries(previous: seq<Message>): seq<string>
  {
    seq(|previous|, k requires 0 <= k < |previous| => MessageToHistory(previous[k]))
  }

  /** The history block of the first package's prompt: its entries joined by
      newlines. */
  function UcrHistory(previous: seq<Message>): string
  {
    Join(UcrHistoryEntries(previous), "\n")
  }

  /** The history block holds one entry per earlier window message, in order,
      and each entry reads back as that message's sender and body. */
  lemma UcrHistoryEntriesRoundTrip(previous: seq<Message>)
    ensures |UcrHistoryEntries(previous)| == |previous|
    ensures forall k :: 0 <= k < |previous| ==>
      ParseHistoryEntry(UcrHistoryEntries(previous)[k]) == Some((Sender(previous[k].mtype), previous[k].body))
  {
    forall k | 0 <= k < |previous|
      ensures ParseHistoryEntry(UcrHistoryEntries(previous)[k]) == Some((Sender(previous[k].mtype), previous[k].body))
    {
      MessageToHistoryRoundTrip(previous[k]);
    }
  }

  /** The line of the context block that describes one retrieved segment. */
  function ContextLine(s: Retriever.RetrievedSegment): string
  {
    "Reference number: " + NatToString(s.id) + ", text: " + s.text
  }

  function Context(segs: seq<Retriever.RetrievedSegment>): string
  {
    Join(seq(|segs|, k requires 0 <= k < |segs| => ContextLine(segs[k])), "\n")
  }

  /** A generated reply and the ids of the segments it was given. */
  datatype GenerationResponse = GenerationResponse(text: string, sources: seq<nat>)

  function SegmentIds(segs: seq<Retriever.RetrievedSegment>): (ids: seq<nat>)
    ensures |ids| == |segs|
    ensures forall k :: 0 <= k < |segs| ==> ids[k] == segs[k].id
  {
    seq(|segs|, k requires 0 <= k < |segs| => segs[k].id)
  }

  /** Whether the window ends with a student message (a reply is owed). */
  predicate EndsWithStudent(w: seq<Message>)
  {
    |w| > 0 && w[|w| - 1].mtype == StudentMessage
  }

  /** The retrieval both packages run for the newest student message. */
  function Retrieve(db: Retrieval, course: int, question: string): seq<Retriever.RetrievedSegment>
  {
    Retriever.GetSegmentsFor(db.embeddings, db.segments, db.documents, db.embed, db.l2, question, course, NUM_SEGMENTS)
  }

  /** The tables and collaborators retrieval needs, bundled. */
  datatype Retrieval = Retrieval(
    embeddings: seq<Embedding>,
    segments: map<nat, Segment>,
    documents: map<nat, Document>,
    embed: string -> Vector,
    l2: (Vector, Vector) -> int)

  /** The first package's `generate_response`: a missing conversation is an
      error, no reply is owed unless the window ends with a student message,
      and otherwise the model answers a prompt carrying the context, the
      earlier window messages and the question. */
  function UcrGenerateResponse(convs: map<nat, Conversation>, msgs: seq<Message>, rt: Retrieval,
                               llm: (string, int) -> string, convId: nat, history: nat,
                               maxTokens: int): (r: Result<Option<GenerationResponse>>)
    ensures r.Err? <==> convId !in convs
    ensures r.Ok? ==> (r.value.Some? <==> EndsWithStudent(Window(msgs, convId, history)))
    ensures r.Ok? && r.value.Some? ==>
      var w := Window(msgs, convId, history);
      var segs := Retrieve(rt, convs[convId].courseId, w[|w| - 1].body);
      && r.value.value.sources == SegmentIds(segs)
      && |r.value.value.sources| <= NUM_SEGMENTS
      && r.value.value.text == llm(UcrPrompt(Context(segs), UcrHistory(w[..|w| - 1]), w[|w| - 1].body), maxTokens)
  {
    var w := Window(msgs, convId, history);
    if convId !in convs then Err(NO_CONVERSATION_ERROR)
    else if !EndsWithStudent(w) then Ok(None)
    else
      var question := w[|w| - 1].body;
      var segs := Retrieve(rt, convs[convId].courseId, question);
      var previous := w[..|w| - 1];
      var prompt := UcrPrompt(Context(segs), UcrHistory(previous), question);
      Ok(Some(GenerationResponse(llm(prompt, maxTokens), SegmentIds(segs))))
  }

  /** Every source handed back is a segment of a document of the
      conversation's own course that has an embedding. */
  lemma SourcesInCourse(convs: map<nat, Conversation>, msgs: seq<Message>, rt: Retrieval,
                        llm: (string, int) -> string, convId: nat, history: nat, maxTokens: int)
    requires UcrGenerateResponse(convs, msgs, rt, llm, convId, history, maxTokens).Ok?
    requires UcrGenerateResponse(convs, msgs, rt, llm, convId, history, maxTokens).value.Some?
    ensures var src := UcrGenerateResponse(convs, msgs, rt, llm, convId, history, maxTokens).value.value.sources;
      forall k :: 0 <= k < |src| ==>
        && src[k] in rt.segments
        && rt.segments[src[k]].documentId in rt.documents
        && rt.documents[rt.segments[src[k]].documentId].courseId == convs[convId].courseId
        && exists i :: 0 <= i < |rt.embeddings| && rt.embeddings[i].segmentId == src[k]
  {
    var w := Window(msgs, convId, history);
    var segs := Retrieve(rt, convs[convId].courseId, w[|w| - 1].body);
    forall k | 0 <= k < |segs|
      ensures Retriever.Describes(segs[k], rt.segments, rt.documents, convs[convId].courseId)
    {
    }
  }

  /** A reply is produced only when the newest message of the conversation is
      a student message: no other message of the conversation is newer. */
  lemma ReplyOnlyAfterStudent(convs: map<nat, Conversation>, msgs: seq<Message>, rt: Retrieval,
                              llm: (string, int) -> string, convId: nat, history: nat, maxTokens: int)
    requires UcrGenerateResponse(convs, msgs, rt, llm, convId, history, maxTokens).Ok?
    requires UcrGenerateResponse(convs, msgs, rt, llm, convId, history, maxTokens).value.Some?
    ensures var all := Chronological(msgs, convId);
      |all| > 0 && all[|all| - 1].mtype == StudentMessage
  {
    var all := Chronological(msgs, convId);
    WindowIsSuffix(msgs, convId, history);
  }

  /** A role-tagged entry of the second package's model input. */
  datatype Content = Content(role: string, parts: seq<string>)

  const INVALID_TYPE_ERROR: string :=
    "Invalid message type 'MessageType.ASSISTANT_MESSAGE' encountered when generating language model response. Only student and bot messages are allowed."

  /** The second package's `message_to_history`: only student and bot
      messages have a role; any other kind is a `ValueError`. */
  function WluMessageToHistory(m: Message): (r: Result<Content>)
    ensures r.Ok? <==> m.mtype != AssistantMessage
    ensures r.Ok? ==> r.value.parts == [m.body]
    ensures r.Ok? ==> (r.value.role == "user" <==> m.mtype == StudentMessage)
    ensures r.Ok? ==> (r.value.role == "model" <==> m.mtype == BotMessage)
  {
    match m.mtype
    case StudentMessage => Ok(Content("user", [m.body]))
    case BotMessage => Ok(Content("model", [m.body]))
    case AssistantMessage => Err(INVALID_TYPE_ERROR)
  }

  /** `list(map(message_to_history, ms))`: the first failure aborts the map. */
  function HistoryContents(ms: seq<Message>): (r: Result<seq<Content>>)
    ensures r.Ok? <==> forall k :: 0 <= k < |ms| ==> ms[k].mtype != AssistantMessage
    ensures r.Ok? ==> |r.value| == |ms|
    ensures r.Ok? ==> forall k :: 0 <= k < |ms| ==> Ok(r.value[k]) == WluMessageToHistory(ms[k])
  {
    if ms == [] then Ok([])
    else
      match WluMessageToHistory(ms[0])
      case Err(e) => Err(e)
      case Ok(c) =>
        match HistoryContents(ms[1..])
        case Err(e) => Err(e)
        case Ok(cs) =>
          assert forall k :: 1 <= k < |ms| ==> ms[k] == ms[1..][k - 1];
          Ok([c] + cs)
  }

  /** The second package's model input: the history contents followed by one
      final user entry holding the formatted prompt. */
  function WluModelInput(history: seq<Content>, prompt: string): (input: seq<Content>)
    ensures |input| == |history| + 1
    ensures input[..|history|] == history
    ensures input[|history|] == Content("user", [prompt])
  {
    history + [Content("user", [prompt])]
  }

  /** The second package's `generate_response`: as the first, except the
      history travels as contents and an assistant message among the earlier
      window messages makes generation fail. */
  function WluGenerateResponse(convs: map<nat, Conversation>, msgs: seq<Message>, rt: Retrieval,
                               llm: (seq<Content>, int) -> string, convId: nat, history: nat,
                               maxTokens: int): (r: Result<Option<GenerationResponse>>)
    ensures var w := Window(msgs, convId, history);
      r.Err? <==> convId !in convs
                  || (EndsWithStudent(w) && exists k :: 0 <= k < |w| - 1 && w[k].mtype == AssistantMessage)
    ensures r.Ok? ==> (r.value.Some? <==> EndsWithStudent(Window(msgs, convId, history)))
  {
    WluRespond(convs, Window(msgs, convId, history), rt, llm, convId, maxTokens)
  }

  /** The second package's generation on the window already read. */
  function WluRespond(convs: map<nat, Conversation>, w: seq<Message>, rt: Retrieval,
                      llm: (seq<Content>, int) -> string, convId: nat, maxTokens: int): (r: Result<Option<GenerationResponse>>)
    ensures r.Err? <==> convId !in convs
                        || (EndsWithStudent(w) && exists k :: 0 <= k < |w| - 1 && w[k].mtype == AssistantMessage)
    ensures r.Ok? ==> (r.value.Some? <==> EndsWithStudent(w))
  {
    if convId !in convs then Err(NO_CONVERSATION_ERROR)
    else if !EndsWithStudent(w) then Ok(None)
    else
      var question := w[|w| - 1].body;
      var reply := WluReply(w[..|w| - 1], question, Retrieve(rt, convs[convId].courseId, question), llm, maxTokens);
      if reply.Err? then Err(reply.error) else Ok(Some(reply.value))
  }

  /** The model's answer to the question, given the earlier window messages
      and the retrieved segments; an assistant message among the earlier
      ones is an error. */
  function WluReply(previous: seq<Message>, question: string, segs: seq<Retriever.RetrievedSegment>,
                    llm: (seq<Content>, int) -> string, maxTokens: int): (r: Result<GenerationResponse>)
    ensures r.Ok? <==> forall k :: 0 <= k < |previous| ==> previous[k].mtype != AssistantMessage
    ensures r.Ok? ==> r.value.sources == SegmentIds(segs)
  {
    match HistoryContents(previous)
    case Err(e) => Err(e)
    case Ok(contents) =>
      var prompt := WluPrompt(Context(segs), question);
      Ok(GenerationResponse(llm(WluModelInput(contents, prompt), maxTokens), SegmentIds(segs)))
  }

  /** Where the window holds no assistant message the two packages agree on
      whether a reply is produced and on its sources. */
  lemma PackagesAgreeWithoutAssistants(convs: map<nat, Conversation>, msgs: seq<Message>, rt: Retrieval,
                                       ucrModel: (string, int) -> string, wluModel: (seq<Content>, int) -> string,
                                       convId: nat, history: nat, maxTokens: int)
    requires var w := Window(msgs, convId, history);
      forall k :: 0 <= k < |w| ==> w[k].mtype != AssistantMessage
    ensures var u := UcrGenerateResponse(convs, msgs, rt, ucrModel, convId, history, maxTokens);
      var v := WluGenerateResponse(convs, msgs, rt, wluModel, convId, history, maxTokens);
      && u.Ok? == v.Ok?
      && (u.Ok? ==> u.value.Some? == v.value.Some?)
      && (u.Ok? && u.value.Some? ==> u.value.value.sources == v.value.value.sources)
  {
  }

  /** `current_user_initiated_or_assists`: the initiator always sees the
      conversation; an assistant sees it once it has left the chatbot. */
  predicate InitiatedOrAssists(email: Email, role: Role, conv: Conversation)
  {
    email == conv.initiatedBy || (role == ASSISTANT && conv.state in {Redirected, Resolved})
  }

  /** While a conversation is with the chatbot only its initiator sees it, and
      a non-assistant never sees someone else's conversation. */
  lemma VisibilityByState(email: Email, role: Role, conv: Conversation)
    ensures conv.state == Chatbot ==> (InitiatedOrAssists(email, role, conv) <==> email == conv.initiatedBy)
    ensures role != ASSISTANT ==> (InitiatedOrAssists(email, role, conv) <==> email == conv.initiatedBy)
    ensures conv.state != Chatbot && role == ASSISTANT ==> InitiatedOrAssists(email, role, conv)
  {
  }
}
