/** The usage report of the second package: per-conversation transcripts
    summarised by the language model, the counts of active students and of
    conversations in a time window, and the report assembled from them. The
    window's bounds are timestamps; the language model and the rendering of a
    timestamp as a date are parameters. */
module Summary {
  import opened Schema
  import opened Sorting
  import opened Text
  import ResponseGeneration

  /** The prompt `generate_usage_summary` passes for each conversation. */
  const CONVERSATION_SUMMARY_PROMPT: string :=
    "These are all of the messages within one" +
    " conversation between a student and a AI" +
    " chatbot tutor. Create a summary of this" +
    " conversation, including topics discusse" +
    "d and student performance.\n        Also " +
    "include a section for specific topics be" +
    "ing discussed where students talked to a" +
    " human assistant. Messages labeled 'Assi" +
    "stantMessage' represent human assistants"

  const REPORT_PROMPT_HEAD: string :=
    "These are all of the messages that stude" +
    "nts have been having with a AI chatbot f" +
    "or help with a computer science course. " +
    "\n                Generate a report for t" +
    "his course's instructor summarising stud" +
    "ents' interactions with the chatbot, hig" +
    "hlighting common questions and students'" +
    " strengths and weaknesses\n              " +
    "  Here are the all student chatbot messa" +
    "ges \n"

  const REPORT_PROMPT_TAIL: string :=
    "\n                Do not include any info" +
    "rmation of chatbot performance, or inclu" +
    "de recommendations for the professor\n   " +
    "             Do not focus too much on sp" +
    "ecific/invidual interactions between a s" +
    "tudent and the chatbot. \n               " +
    " Focus more higher level, what topics ar" +
    "e being discussed and with what frequenc" +
    "y, which topics are students struggling " +
    "at, how are they struggling.\n           " +
    "     Do not include a title for the repo" +
    "rt.\n                Also include a secti" +
    "on for specific topics where students ne" +
    "eded help and required talking to a huma" +
    "n assistant.\n                "
  /** `timestamp > start` and `timestamp < end`, each only when that bound
      is given. */
  predicate InWindow(t: int, start: Option<int>, end: Option<int>)
  {
    (start.None? || start.value < t) && (end.None? || t < end.value)
  }

  /** The messages of one existing conversation inside the window, in table
      order. */
  function WindowedMessages(msgs: seq<Message>, convs: map<nat, Conversation>, convId: nat,
                            start: Option<int>, end: Option<int>): (r: seq<Message>)
    ensures forall m :: m in r <==>
      m in msgs && m.conversationId == convId && convId in convs && InWindow(m.timestamp, start, end)
  {
    if msgs == [] then []
    else
      var rest := WindowedMessages(msgs[..|msgs| - 1], convs, convId, start, end);
      var m := msgs[|msgs| - 1];
      assert msgs == msgs[..|msgs| - 1] + [m];
      if m.conversationId == convId && convId in convs && InWindow(m.timestamp, start, end) then rest + [m] else rest
  }

  /** The transcript's messages: the windowed ones ordered by timestamp. */
  function TranscriptMessages(msgs: seq<Message>, convs: map<nat, Conversation>, convId: nat,
                              start: Option<int>, end: Option<int>): seq<Message>
  {
    SortBy(WindowedMessages(msgs, convs, convId, start, end), ResponseGeneration.Timestamp)
  }

  /** The transcript holds exactly the conversation's messages strictly
      inside the window, each once, oldest first. */
  lemma TranscriptSpec(msgs: seq<Message>, convs: map<nat, Conversation>, convId: nat,
                       start: Option<int>, end: Option<int>)
    ensures var t := TranscriptMessages(msgs, convs, convId, start, end);
      && multiset(t) == multiset(WindowedMessages(msgs, convs, convId, start, end))
      && (forall m :: m in t <==> m in msgs && m.conversationId == convId && convId in convs && InWindow(m.timestamp, start, end))
      && (forall i, j :: 0 <= i < j < |t| ==> t[i].timestamp <= t[j].timestamp)
  {
    var t := TranscriptMessages(msgs, convs, convId, start, end);
    var w := WindowedMessages(msgs, convs, convId, start, end);
    forall m
      ensures m in t <==> m in w
    {
      assert m in t <==> m in multiset(t);
      assert m in w <==> m in multiset(w);
    }
    forall i, j | 0 <= i < j < |t|
      ensures t[i].timestamp <= t[j].timestamp
    {
      assert ResponseGeneration.Timestamp(t[i]) <= ResponseGeneration.Timestamp(t[j]);
    }
  }

  /** The name a message type is shown under. */
  function TypeLabel(t: MessageType): string
  {
    match t
    case StudentMessage => "StudentMessage"
    case BotMessage => "BotMessage"
    case AssistantMessage => "AssistantMessage"
  }

  /** One transcript entry: `# <type>`, a line break, a space, the body. */
  function Render(m: Message): string
  {
    "# " + TypeLabel(m.mtype) + "\n " + m.body
  }

  function LabelType(tag: string): Option<MessageType>
  {
    if tag == "StudentMessage" then Some(StudentMessage)
    else if tag == "BotMessage" then Some(BotMessage)
    else if tag == "AssistantMessage" then Some(AssistantMessage)
    else None
  }

  /** Reads an entry back: the type from its first line and the body after
      the line break and the space. */
  function ParseEntry(entry: string): Option<(MessageType, string)>
  {
    if |entry| < 2 || entry[..2] != "# " then None
    else
      var rest := entry[2..];
      var nl := IndexOf(rest, '\n');
      if nl < 0 || nl + 1 >= |rest| || rest[nl + 1] != ' ' then None
      else match LabelType(rest[..nl])
        case None => None
        case Some(t) => Some((t, rest[nl + 2..]))
  }

  /** Every type's name reads back as that type and has no line break. */
  lemma TypeLabelRoundTrip(t: MessageType)
    ensures LabelType(TypeLabel(t)) == Some(t)
    ensures '\n' !in TypeLabel(t)
  {
  }

  /** An entry built from a name without line breaks splits at the first
      line break after the name. */
  lemma ParseEntryOf(tag: string, body: string)
    requires '\n' !in tag
    ensures ParseEntry("# " + tag + "\n " + body) == match LabelType(tag)
      case None => None
      case Some(t) => Some((t, body))
  {
    var entry := "# " + tag + "\n " + body;
    var rest := tag + "\n " + body;
    assert entry[..2] == "# ";
    assert entry[2..] == rest;
    assert rest[|tag|] == '\n' && rest[|tag| + 1] == ' ';
    assert rest[..|tag|] == tag;
    FirstNewline(tag, " " + body);
    assert rest == tag + "\n" + (" " + body);
    assert rest[|tag| + 2..] == body;
  }

  /** An entry names its type and keeps the whole body, line breaks and all:
      reading it back gives both. */
  lemma ParseRender(m: Message)
    ensures ParseEntry(Render(m)) == Some((m.mtype, m.body))
  {
    TypeLabelRoundTrip(m.mtype);
    ParseEntryOf(TypeLabel(m.mtype), m.body);
  }

  function RenderAll(ms: seq<Message>): (r: seq<string>)
    ensures |r| == |ms|
    ensures forall k :: 0 <= k < |ms| ==> r[k] == Render(ms[k])
  {
    seq(|ms|, k requires 0 <= k < |ms| => Render(ms[k]))
  }

  /** The prompt followed by the transcript entries, one per line. */
  function ConversationSummaryInput(prompt: string, msgs: seq<Message>, convs: map<nat, Conversation>, convId: nat,
                                    start: Option<int>, end: Option<int>): string
  {
    prompt + Join(RenderAll(TranscriptMessages(msgs, convs, convId, start, end)), "\n")
  }

  /** `generate_conversation_summary`: the model's answer to that text sent
      as a single user turn. */
  function ConversationSummary(llm: seq<ResponseGeneration.Content> -> string, prompt: string, msgs: seq<Message>,
                               convs: map<nat, Conversation>, convId: nat, start: Option<int>, end: Option<int>): string
  {
    llm([ResponseGeneration.Content("user", [ConversationSummaryInput(prompt, msgs, convs, convId, start, end)])])
  }

  /** A message of the course (through its conversation) inside the window. */
  predicate InScope(m: Message, convs: map<nat, Conversation>, course: int, start: Option<int>, end: Option<int>)
  {
    m.conversationId in convs && convs[m.conversationId].courseId == course && InWindow(m.timestamp, start, end)
  }

  /** `count(distinct written_by)` over the course's messages in the window. */
  function ActiveStudents(msgs: seq<Message>, convs: map<nat, Conversation>, course: int,
                          start: Option<int>, end: Option<int>): set<Email>
  {
    set m | m in msgs && InScope(m, convs, course, start, end) :: m.writtenBy
  }

  /** `distinct conversation_id` over the same messages. */
  function ConversationIds(msgs: seq<Message>, convs: map<nat, Conversation>, course: int,
                           start: Option<int>, end: Option<int>): set<nat>
  {
    set m | m in msgs && InScope(m, convs, course, start, end) :: m.conversationId
  }

  /** Both counts are zero exactly when no message of the course falls in
      the window, and every counted conversation belongs to the course and
      has a message in its windowed transcript. */
  lemma CountsSpec(msgs: seq<Message>, convs: map<nat, Conversation>, course: int, start: Option<int>, end: Option<int>)
    ensures var none := forall m :: m in msgs ==> !InScope(m, convs, course, start, end);
      && (|ActiveStudents(msgs, convs, course, start, end)| == 0 <==> none)
      && (|ConversationIds(msgs, convs, course, start, end)| == 0 <==> none)
    ensures forall id :: id in ConversationIds(msgs, convs, course, start, end) ==>
      id in convs && convs[id].courseId == course && WindowedMessages(msgs, convs, id, start, end) != []
  {
    var students := ActiveStudents(msgs, convs, course, start, end);
    var ids := ConversationIds(msgs, convs, course, start, end);
    if m :| m in msgs && InScope(m, convs, course, start, end) {
      assert m.writtenBy in students;
      assert m.conversationId in ids;
    }
    forall id | id in ids
      ensures id in convs && convs[id].courseId == course && WindowedMessages(msgs, convs, id, start, end) != []
    {
      var m :| m in msgs && InScope(m, convs, course, start, end) && m.conversationId == id;
      assert m in WindowedMessages(msgs, convs, id, start, end);
    }
  }

  /** The summary loop over a set of conversation ids: each id is visited
      once, in an order the set does not fix, and summarised by `summarize`. */
  method SummariseEach(conversations: set<nat>, summarize: nat -> string) returns (ids: seq<nat>, summaries: seq<string>)
    ensures |ids| == |summaries|
    ensures forall i, j :: 0 <= i < j < |ids| ==> ids[i] != ids[j]
    ensures forall id :: id in ids <==> id in conversations
    ensures forall k :: 0 <= k < |ids| ==> summaries[k] == summarize(ids[k])
  {
    var todo := conversations;
    ids, summaries := [], [];
    while todo != {}
      invariant |ids| == |summaries|
      invariant forall i, j :: 0 <= i < j < |ids| ==> ids[i] != ids[j]
      invariant forall id :: id in ids ==> id !in todo
      invariant forall id :: id in ids || id in todo <==> id in conversations
      invariant forall k :: 0 <= k < |ids| ==> summaries[k] == summarize(ids[k])
      decreases |todo|
    {
      var id :| id in todo;
      summaries := summaries + [summarize(id)];
      ids := ids + [id];
      todo := todo - {id};
    }
  }

  /** `generate_conversation_summary` as a function of the conversation id
      alone, for one course report. */
  function SummaryOf(llm: seq<ResponseGeneration.Content> -> string, msgs: seq<Message>, convs: map<nat, Conversation>,
                     start: Option<int>, end: Option<int>): nat -> string
  {
    (id: nat) => ConversationSummary(llm, CONVERSATION_SUMMARY_PROMPT, msgs, convs, id, start, end)
  }

  /** The report heading: a date range when the start is given (up to the
      end, or "Present"), none otherwise, even when only the end is given. */
  function ReportTitle(courseName: string, start: Option<int>, end: Option<int>, dateOf: int -> string): string
  {
    var head := "## " + courseName + " Chatbot Interaction Report";
    if start.Some? && end.Some? then head + " (" + dateOf(start.value) + " - " + dateOf(end.value) + ")\n\n"
    else if start.Some? then head + " (" + dateOf(start.value) + " - Present)\n\n"
    else head + "\n\n"
  }

  /** An end bound without a start bound leaves the heading as if no bound
      were given, although the counts still use it. */
  lemma TitleIgnoresLoneEnd(courseName: string, end: int, dateOf: int -> string)
    ensures ReportTitle(courseName, None, Some(end), dateOf) == ReportTitle(courseName, None, None, dateOf)
  {
  }

  function ReportPrompt(summaries: string): string
  {
    REPORT_PROMPT_HEAD + summaries + REPORT_PROMPT_TAIL
  }

  /** The report text: the heading, the two counts on their own lines, a
      blank line and the model's report. */
  function Report(title: string, students: nat, conversations: nat, response: string): string
  {
    title + "Active Students: " + NatToString(students) + "\n"
      + "Total Conversations: " + NatToString(conversations) + "\n" + "\n" + response
  }

  /** Regrouping a nine-part concatenation to the right. */
  lemma Regroup(x1: string, x2: string, x3: string, x4: string, x5: string, x6: string, x7: string, x8: string, x9: string)
    ensures x1 + x2 + x3 + x4 + x5 + x6 + x7 + x8 + x9 == (x1 + x2) + (x3 + x4 + (x5 + (x6 + x7 + (x8 + x9))))
  {
  }

  /** The first line break of a text that starts with a line free of
      them ends that line. */
  lemma FirstNewline(x: string, r: string)
    requires '\n' !in x
    ensures IndexOf(x + "\n" + r, '\n') == |x|
  {
    var a := x + "\n" + r;
    var i := IndexOf(a, '\n');
    assert a[|x|] == '\n';
    assert forall j :: 0 <= j < |x| ==> a[j] == x[j];
    assert a[..|x| + 1][..|x|] == x;
  }

  /** Two texts that each run up to their first line break agree there and
      after it. */
  lemma SplitAtNewline(x: string, y: string, r1: string, r2: string)
    requires '\n' !in x && '\n' !in y
    requires x + "\n" + r1 == y + "\n" + r2
    ensures x == y && r1 == r2
  {
    var a := x + "\n" + r1;
    FirstNewline(x, r1);
    FirstNewline(y, r2);
    assert x == a[..|x|];
    assert y == (y + "\n" + r2)[..|y|];
    assert r1 == a[|x| + 1..];
    assert r2 == (y + "\n" + r2)[|y| + 1..];
  }

  /** A common prefix can be dropped. */
  lemma DropPrefix(p: string, a: string, b: string)
    requires p + a == p + b
    ensures a == b
  {
    assert a == (p + a)[|p|..];
    assert b == (p + b)[|p|..];
  }

  /** A count written as digits and followed by a line break is read back
      together with what follows it. */
  lemma ReadCount(n1: nat, t1: string, n2: nat, t2: string)
    requires NatToString(n1) + "\n" + t1 == NatToString(n2) + "\n" + t2
    ensures n1 == n2 && t1 == t2
  {
    NoNewlineInDigits(n1);
    NoNewlineInDigits(n2);
    SplitAtNewline(NatToString(n1), NatToString(n2), t1, t2);
    NatToStringInjective(n1, n2);
  }

  /** The counts and the model's text can be read back from a report with a
      known heading: different counts always give different reports. */
  lemma ReportInjective(title: string, s1: nat, c1: nat, r1: string, s2: nat, c2: nat, r2: string)
    requires Report(title, s1, c1, r1) == Report(title, s2, c2, r2)
    ensures s1 == s2 && c1 == c2 && r1 == r2
  {
    var p := title + "Active Students: ";
    var q := "Total Conversations: ";
    var u1 := NatToString(c1) + "\n" + ("\n" + r1);
    var u2 := NatToString(c2) + "\n" + ("\n" + r2);
    Regroup(title, "Active Students: ", NatToString(s1), "\n", q, NatToString(c1), "\n", "\n", r1);
    Regroup(title, "Active Students: ", NatToString(s2), "\n", q, NatToString(c2), "\n", "\n", r2);
    DropPrefix(p, NatToString(s1) + "\n" + (q + u1), NatToString(s2) + "\n" + (q + u2));
    ReadCount(s1, q + u1, s2, q + u2);
    DropPrefix(q, u1, u2);
    ReadCount(c1, "\n" + r1, c2, "\n" + r2);
    DropPrefix("\n", r1, r2);
  }

  /** A count is written without line breaks. */
  lemma NoNewlineInDigits(n: nat)
    ensures '\n' !in NatToString(n)
  {
    var s := NatToString(n);
    assert forall k :: 0 <= k < |s| ==> s[k] != '\n';
  }

  /** `generate_usage_summary`. Returns the report together with the
      conversations in the order they were summarised and their summaries. */
  method GenerateUsageSummary(db: Database, course: int, start: Option<int>, end: Option<int>, courseName: string,
                              llm: seq<ResponseGeneration.Content> -> string, dateOf: int -> string)
    returns (report: string, ids: seq<nat>, summaries: seq<string>)
    ensures forall id :: id in ids <==> id in ConversationIds(db.messages, db.conversations, course, start, end)
    ensures forall i, j :: 0 <= i < j < |ids| ==> ids[i] != ids[j]
    ensures |summaries| == |ids|
    ensures forall k :: 0 <= k < |ids| ==>
      summaries[k] == ConversationSummary(llm, CONVERSATION_SUMMARY_PROMPT, db.messages, db.conversations, ids[k], start, end)
    ensures report == Report(ReportTitle(courseName, start, end, dateOf),
                             |ActiveStudents(db.messages, db.conversations, course, start, end)|,
                             |ConversationIds(db.messages, db.conversations, course, start, end)|,
                             llm([ResponseGeneration.Content("user", [ReportPrompt(Join(summaries, "\n"))])]))
  {
    var students := |ActiveStudents(db.messages, db.conversations, course, start, end)|;
    var conversationIds := ConversationIds(db.messages, db.conversations, course, start, end);
    ids, summaries := SummariseEach(conversationIds, SummaryOf(llm, db.messages, db.conversations, start, end));
    var response := llm([ResponseGeneration.Content("user", [ReportPrompt(Join(summaries, "\n"))])]);
    report := Report(ReportTitle(courseName, start, end, dateOf), students, |conversationIds|, response);
  }
}
