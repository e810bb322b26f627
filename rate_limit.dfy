/** The per-user, per-course rate limiter: for every limit of a course, how
    many bot replies the user received inside that limit's rolling window,
    and whether any limit is exhausted. Both application packages implement
    it the same way; the usage record carries the limit's id as the second
    package's does. */
module RateLimit {
  import opened Schema

  datatype LimitUsage = LimitUsage(
    used: int,
    timeSpanSeconds: int,
    maximumNumberOfUses: int,
    limitId: nat)

  /** One limit is reached once its uses meet its maximum. */
  predicate Reached(u: LimitUsage)
  {
    u.used >= u.maximumNumberOfUses
  }

  /** The list's `reached`: the left fold of `reached |= limit.reached`. */
  function AnyReached(us: seq<LimitUsage>): (r: bool)
    ensures r <==> exists i :: 0 <= i < |us| && Reached(us[i])
  {
    if us == [] then false
    else
      var init := us[..|us| - 1];
      assert forall i :: 0 <= i < |init| ==> init[i] == us[i];
      AnyReached(init) || Reached(us[|us| - 1])
  }

  /** The list's `reached` as the source computes it, with an accumulator. */
  method LimitUsageListReached(us: seq<LimitUsage>) returns (reached: bool)
    ensures reached <==> exists i :: 0 <= i < |us| && us[i].used >= us[i].maximumNumberOfUses
    ensures us == [] ==> !reached
  {
    reached := false;
    for i := 0 to |us|
      invariant reached <==> exists j :: 0 <= j < i && Reached(us[j])
    {
      reached := reached || Reached(us[i]);
    }
  }

  /** Ids of the conversations `email` initiated in `course`. */
  function OwnConversationIds(convs: map<nat, Conversation>, email: Email, course: int): set<nat>
  {
    set id | id in convs && convs[id].initiatedBy == email && convs[id].courseId == course
  }

  /** Whether a message row is one use: a bot reply in one of the given
      conversations, strictly after the start of the window. */
  predicate Counts(m: Message, convIds: set<nat>, beginning: int)
  {
    m.conversationId in convIds && m.mtype == BotMessage && m.timestamp > beginning
  }

  /** `count()` of the bot-message query. */
  function CountUsed(msgs: seq<Message>, convIds: set<nat>, beginning: int): (n: nat)
    ensures n <= |msgs|
  {
    if msgs == [] then 0
    else
      CountUsed(msgs[..|msgs| - 1], convIds, beginning)
      + (if Counts(msgs[|msgs| - 1], convIds, beginning) then 1 else 0)
  }

  /** The rows the query matches, as a set of table positions. */
  ghost function CountedRows(msgs: seq<Message>, convIds: set<nat>, beginning: int): set<int>
  {
    set i | 0 <= i < |msgs| && Counts(msgs[i], convIds, beginning)
  }

  /** The count is exactly the number of matching rows. */
  lemma {:induction false} CountUsedIsMatchingRows(msgs: seq<Message>, convIds: set<nat>, beginning: int)
    ensures CountUsed(msgs, convIds, beginning) == |CountedRows(msgs, convIds, beginning)|
  {
    if msgs != [] {
      var init := msgs[..|msgs| - 1];
      CountUsedIsMatchingRows(init, convIds, beginning);
      var before := CountedRows(init, convIds, beginning);
      var after := CountedRows(msgs, convIds, beginning);
      if Counts(msgs[|msgs| - 1], convIds, beginning) {
        assert after == before + {|msgs| - 1};
      } else {
        assert after == before;
      }
    }
  }

  /** Inserting a message changes the count by one exactly when it is a use. */
  lemma CountUsedAppend(msgs: seq<Message>, m: Message, convIds: set<nat>, beginning: int)
    ensures CountUsed(msgs + [m], convIds, beginning)
         == CountUsed(msgs, convIds, beginning) + (if Counts(m, convIds, beginning) then 1 else 0)
  {
    assert (msgs + [m])[..|msgs|] == msgs;
  }

  /** A later window start never counts more. */
  lemma {:induction false} CountUsedAntitone(msgs: seq<Message>, convIds: set<nat>, b1: int, b2: int)
    requires b1 <= b2
    ensures CountUsed(msgs, convIds, b2) <= CountUsed(msgs, convIds, b1)
  {
    if msgs != [] {
      CountUsedAntitone(msgs[..|msgs| - 1], convIds, b1, b2);
    }
  }

  /** The course's limits in table order (the `WHERE course_id = ?` query). */
  function CourseLimits(limits: seq<Limit>, course: int): (r: seq<Limit>)
    ensures forall l :: l in r <==> l in limits && l.courseId == course
    ensures |r| <= |limits|
  {
    if limits == [] then []
    else
      var init := limits[..|limits| - 1];
      var last := limits[|limits| - 1];
      assert limits == init + [last];
      CourseLimits(init, course) + (if last.courseId == course then [last] else [])
  }

  /** The usage record of one limit. */
  function UsageOf(l: Limit, msgs: seq<Message>, convIds: set<nat>, now: int): LimitUsage
  {
    LimitUsage(CountUsed(msgs, convIds, now - l.timeSpanSeconds), l.timeSpanSeconds, l.maximumNumberOfUses, l.id)
  }

  /** What `LimitUsageList.get(email, course)` returns at time `now`. */
  function Usages(limits: seq<Limit>, convs: map<nat, Conversation>, msgs: seq<Message>,
                  email: Email, course: int, now: int): seq<LimitUsage>
  {
    var cl := CourseLimits(limits, course);
    var ids := OwnConversationIds(convs, email, course);
    seq(|cl|, i requires 0 <= i < |cl| => UsageOf(cl[i], msgs, ids, now))
  }

  /** Whether the user is currently blocked in the course. */
  predicate LimitReached(limits: seq<Limit>, convs: map<nat, Conversation>, msgs: seq<Message>,
                         email: Email, course: int, now: int)
  {
    AnyReached(Usages(limits, convs, msgs, email, course, now))
  }

  /** The user is blocked iff some limit of the course has at least its
      maximum of the user's own bot replies strictly inside its window; a
      course without limits never blocks. */
  lemma LimitReachedIff(limits: seq<Limit>, convs: map<nat, Conversation>, msgs: seq<Message>,
                        email: Email, course: int, now: int)
    ensures LimitReached(limits, convs, msgs, email, course, now) <==>
      exists l :: l in limits && l.courseId == course &&
        |CountedRows(msgs, OwnConversationIds(convs, email, course), now - l.timeSpanSeconds)| >= l.maximumNumberOfUses
    ensures (forall l :: l in limits ==> l.courseId != course) ==> !LimitReached(limits, convs, msgs, email, course, now)
  {
    var cl := CourseLimits(limits, course);
    var ids := OwnConversationIds(convs, email, course);
    var us := Usages(limits, convs, msgs, email, course, now);
    forall l | l in cl
      ensures CountUsed(msgs, ids, now - l.timeSpanSeconds) == |CountedRows(msgs, ids, now - l.timeSpanSeconds)|
    {
      CountUsedIsMatchingRows(msgs, ids, now - l.timeSpanSeconds);
    }
    if LimitReached(limits, convs, msgs, email, course, now) {
      var i :| 0 <= i < |us| && Reached(us[i]);
      assert cl[i] in cl;
    }
    if exists l :: l in limits && l.courseId == course &&
        |CountedRows(msgs, ids, now - l.timeSpanSeconds)| >= l.maximumNumberOfUses {
      var l :| l in limits && l.courseId == course &&
        |CountedRows(msgs, ids, now - l.timeSpanSeconds)| >= l.maximumNumberOfUses;
      assert l in cl;
      var i :| 0 <= i < |cl| && cl[i] == l;
      assert Reached(us[i]);
    }
  }

  /** Waiting never blocks a user who was not blocked: usage only drains as
      the clock advances. */
  lemma LimitReachedLater(limits: seq<Limit>, convs: map<nat, Conversation>, msgs: seq<Message>,
                          email: Email, course: int, now: int, later: int)
    requires now <= later
    requires LimitReached(limits, convs, msgs, email, course, later)
    ensures LimitReached(limits, convs, msgs, email, course, now)
  {
    var cl := CourseLimits(limits, course);
    var ids := OwnConversationIds(convs, email, course);
    var us := Usages(limits, convs, msgs, email, course, later);
    var i :| 0 <= i < |us| && Reached(us[i]);
    CountUsedAntitone(msgs, ids, now - cl[i].timeSpanSeconds, later - cl[i].timeSpanSeconds);
    assert Reached(Usages(limits, convs, msgs, email, course, now)[i]);
  }

  /** Inserting anything but one of the user's own bot replies in the course
      leaves every usage of the user unchanged. */
  lemma UsagesIgnoreOtherMessages(limits: seq<Limit>, convs: map<nat, Conversation>, msgs: seq<Message>,
                                  m: Message, email: Email, course: int, now: int)
    requires m.mtype != BotMessage || m.conversationId !in OwnConversationIds(convs, email, course)
    ensures Usages(limits, convs, msgs + [m], email, course, now) == Usages(limits, convs, msgs, email, course, now)
  {
    var cl := CourseLimits(limits, course);
    var ids := OwnConversationIds(convs, email, course);
    forall i | 0 <= i < |cl|
      ensures UsageOf(cl[i], msgs + [m], ids, now) == UsageOf(cl[i], msgs, ids, now)
    {
      CountUsedAppend(msgs, m, ids, now - cl[i].timeSpanSeconds);
    }
  }

  /** `LimitUsageList.get`: one usage per limit of the course, built by
      appending in a loop over the limits. Reads the tables, writes nothing. */
  method GetLimitUsages(db: Database, email: Email, course: int, now: int) returns (usages: seq<LimitUsage>)
    ensures usages == Usages(db.limits, db.conversations, db.messages, email, course, now)
    ensures |usages| == |CourseLimits(db.limits, course)|
    ensures forall i :: 0 <= i < |usages| ==>
      var l := CourseLimits(db.limits, course)[i];
      && usages[i].limitId == l.id
      && usages[i].timeSpanSeconds == l.timeSpanSeconds
      && usages[i].maximumNumberOfUses == l.maximumNumberOfUses
      && usages[i].used == CountUsed(db.messages, OwnConversationIds(db.conversations, email, course), now - l.timeSpanSeconds)
  {
    var courseLimits := CourseLimits(db.limits, course);
    var conversationIds := OwnConversationIds(db.conversations, email, course);
    var msgs := db.messages;
    usages := [];
    var i := 0;
    while i < |courseLimits|
      invariant 0 <= i <= |courseLimits| && |usages| == i
      invariant forall j :: 0 <= j < i ==> usages[j] == UsageOf(courseLimits[j], msgs, conversationIds, now)
    {
      var limit := courseLimits[i];
      var beginningOfSpan := now - limit.timeSpanSeconds;
      var used := CountUsed(msgs, conversationIds, beginningOfSpan);
      usages := usages + [LimitUsage(used, limit.timeSpanSeconds, limit.maximumNumberOfUses, limit.id)];
      i := i + 1;
    }
  }

  /** `get_language_model_client_with_limit_info`: the configured client
      together with exactly the usages `GetLimitUsages` reports. */
  method ClientWithLimitInfo<C>(db: Database, client: C, email: Email, course: int, now: int)
    returns (c: C, usages: seq<LimitUsage>)
    ensures c == client
    ensures usages == Usages(db.limits, db.conversations, db.messages, email, course, now)
  {
    c := client;
    usages := GetLimitUsages(db, email, course, now);
  }
}
