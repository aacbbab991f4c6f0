/**
 * The agent router's sessions: the ownership check every session endpoint
 * makes, the title update, and `create_message`, which stores the user's
 * question, asks the agent with the session's earlier messages and the
 * project's committed pointers, stores the answer with a record for each
 * selected pointer, and names an untitled session after its first
 * question.
 *
 * The database is a store object: sessions by id, messages and pointer
 * records in insertion order. A counter stands for both the generated
 * message ids and the clock, so every new row is newer than all earlier
 * ones. The agent is a parameter: given the question, the history and
 * the pointers, it returns a reply or the message of the exception it
 * raised.
 */
module AgentSessions {
  import opened Wrappers
  import opened JsonValue
  import opened Selection
  import AgentService

  datatype SessionRow = SessionRow(id: string, userId: string, projectId: string, title: Option<string>, updatedAt: nat)

  /** A stored message; `content` and `narrative` hold whatever the reply gave. */
  datatype MessageRow = MessageRow(id: nat, sessionId: string, role: string, content: Json, narrative: Json, createdAt: nat)

  /** An `AgentMessagePointer` row. */
  datatype PointerLink = PointerLink(messageId: nat, pointerId: string, sheetId: string, sheetName: string, reason: Json)

  /** One `{"role": ..., "content": ...}` entry of the history handed to the agent. */
  datatype HistoryEntry = HistoryEntry(role: string, content: Json)

  /** An `HTTPException`, or another exception that ends the request with a server error. */
  datatype Error = HttpError(status: nat, detail: string) | Raised(message: string)

  datatype SessionView = SessionView(session: SessionRow, messages: seq<MessageRow>)

  datatype MessageView = MessageView(message: MessageRow, pointers: seq<PointerLink>)

  // ---------------------------------------------------------------------
  // Ownership
  // ---------------------------------------------------------------------

  /** `_verify_session_ownership`: 404 for an unknown session, 403 for another user's. */
  function VerifyOwnership(sessions: map<string, SessionRow>, sessionId: string, userId: string): (r: Result<SessionRow, Error>)
    ensures r.Success? <==> sessionId in sessions && sessions[sessionId].userId == userId
    ensures r.Success? ==> r.value == sessions[sessionId]
    ensures r.Failure? ==> r.error.HttpError? && r.error.status == (if sessionId in sessions then 403 else 404)
  {
    if sessionId !in sessions then Failure(HttpError(404, "Session not found"))
    else if sessions[sessionId].userId != userId then Failure(HttpError(403, "Not authorized to access this session"))
    else Success(sessions[sessionId])
  }

  // ---------------------------------------------------------------------
  // Titles
  // ---------------------------------------------------------------------

  /** The title made from a question: its first 50 characters, marked with "..." when it was longer. */
  function AutoTitle(query: string): (t: string)
    ensures |query| <= 50 ==> t == query
    ensures |query| > 50 ==> |t| == 53 && t[..50] == query[..50] && t[50..] == "..."
  {
    if |query| > 50 then query[..50] + "..." else query
  }

  /** The messages stored for a session. */
  function CountIn(messages: seq<MessageRow>, sessionId: string): nat
    decreases |messages|
  {
    if messages == [] then 0
    else CountIn(messages[..|messages| - 1], sessionId) + (if messages[|messages| - 1].sessionId == sessionId then 1 else 0)
  }

  /** The title after an exchange, given the session's message count once both messages are stored. */
  function NewTitle(current: Option<string>, count: nat, query: string): Option<string> {
    if count <= 2 && !Filled(current) then Some(AutoTitle(query)) else current
  }

  /**
   * The title changes only on a session's first exchange, and only when it
   * has no title (or an empty one); it then becomes the question's title.
   */
  lemma FirstExchangeTitle(messages: seq<MessageRow>, asked: MessageRow, answered: MessageRow, current: Option<string>, query: string)
    requires asked.sessionId == answered.sessionId
    ensures var t := NewTitle(current, CountIn(messages + [asked, answered], asked.sessionId), query);
      (CountIn(messages, asked.sessionId) == 0 && !Filled(current) ==> t == Some(AutoTitle(query)))
      && (CountIn(messages, asked.sessionId) > 0 || Filled(current) ==> t == current)
  {
    var both := messages + [asked, answered];
    assert both[..|both| - 1] == messages + [asked];
    assert (messages + [asked])[..|messages|] == messages;
  }

  // ---------------------------------------------------------------------
  // History
  // ---------------------------------------------------------------------

  /** The messages of one session, minus an excluded id, in stored order. */
  function SessionRows(messages: seq<MessageRow>, sessionId: string, exclude: Option<nat>): seq<MessageRow>
    decreases |messages|
  {
    if messages == [] then []
    else
      var m := messages[|messages| - 1];
      SessionRows(messages[..|messages| - 1], sessionId, exclude)
        + (if m.sessionId == sessionId && Some(m.id) != exclude then [m] else [])
  }

  /** Rows stored in strictly increasing creation order. */
  predicate Ascending(messages: seq<MessageRow>) {
    forall i, j :: 0 <= i < j < |messages| ==> messages[i].createdAt < messages[j].createdAt
  }

  /** The session's rows are exactly its stored messages other than the excluded one. */
  lemma {:induction false} SessionRowsMembers(messages: seq<MessageRow>, sessionId: string, exclude: Option<nat>)
    ensures forall m :: m in SessionRows(messages, sessionId, exclude) <==>
      m in messages && m.sessionId == sessionId && Some(m.id) != exclude
    decreases |messages|
  {
    if messages != [] {
      var n := |messages| - 1;
      SessionRowsMembers(messages[..n], sessionId, exclude);
      assert messages == messages[..n] + [messages[n]];
    }
  }

  /** Rows stored in creation order come out ordered by creation time, as the query's `ORDER BY` asks. */
  lemma {:induction false} SessionRowsAscending(messages: seq<MessageRow>, sessionId: string, exclude: Option<nat>)
    requires Ascending(messages)
    ensures Ascending(SessionRows(messages, sessionId, exclude))
    decreases |messages|
  {
    if messages != [] {
      var n := |messages| - 1;
      var prefix := messages[..n];
      SessionRowsAscending(prefix, sessionId, exclude);
      SessionRowsMembers(prefix, sessionId, exclude);
      var rows := SessionRows(prefix, sessionId, exclude);
      forall x | x in rows ensures x.createdAt < messages[n].createdAt {
        var j :| 0 <= j < n && prefix[j] == x;
      }
    }
  }

  /** The `{"role", "content"}` entries built from the earlier messages. */
  function History(rows: seq<MessageRow>): (h: seq<HistoryEntry>)
    ensures |h| == |rows|
    ensures forall i :: 0 <= i < |rows| ==> h[i].role == rows[i].role && h[i].content == rows[i].content
  {
    seq(|rows|, i requires 0 <= i < |rows| => HistoryEntry(rows[i].role, rows[i].content))
  }

  /** The loop that builds `conversation_history`. */
  method BuildHistory(rows: seq<MessageRow>) returns (history: seq<HistoryEntry>)
    ensures history == History(rows)
  {
    history := [];
    for i := 0 to |rows|
      invariant history == History(rows[..i])
    {
      history := history + [HistoryEntry(rows[i].role, rows[i].content)];
    }
    assert rows[..|rows|] == rows;
  }

  // ---------------------------------------------------------------------
  // The reply and the pointer records
  // ---------------------------------------------------------------------

  const RouterApology: string := "I encountered an issue processing your question. Please try again."

  /** The reply the router goes on with: the agent's, or its own fallback when the agent raised. */
  function ReplyOf(outcome: Result<AgentService.AgentReply, string>): (r: AgentService.AgentReply)
    ensures outcome.Success? ==> r == outcome.value
    ensures outcome.Failure? ==> r.shortAnswer == JStr(RouterApology)
    ensures outcome.Failure? ==> r.narrative == JStr("Error: " + outcome.error)
  {
    match outcome
    case Success(reply) => reply
    case Failure(m) => AgentService.AgentReply(JStr(RouterApology), JStr("Error: " + m), JArr([]))
  }

  /** After the agent raised, the fallback selects nothing, so no pointer record is made. */
  lemma FallbackSelectsNothing(m: string, known: set<string>)
    ensures HitsOf(ReplyOf(Failure(m)).selectedPointers, known) == Success([])
  {
  }

  /** Pointer ids of the committed pointers. */
  function PointerId(p: AgentService.PromptPointer): string {
    p.id
  }

  /** The records for the kept entries: the pointer's sheet comes from the lookup, the reason from the reply. */
  function LinksOf(hits: seq<Hit>, lookup: map<string, AgentService.PromptPointer>, messageId: nat): (r: seq<PointerLink>)
    requires forall h :: h in hits ==> h.id in lookup
    ensures |r| == |hits|
    ensures forall i :: 0 <= i < |hits| ==>
      r[i] == PointerLink(messageId, hits[i].id, lookup[hits[i].id].sheetId, lookup[hits[i].id].sheetName, hits[i].reason)
  {
    seq(|hits|, i requires 0 <= i < |hits| =>
      PointerLink(messageId, hits[i].id, lookup[hits[i].id].sheetId, lookup[hits[i].id].sheetName, hits[i].reason))
  }

  /**
   * The records made for a reply name committed pointers only, with that
   * pointer's sheet, each with the reason of the entry that selected it,
   * in the order the reply listed them.
   */
  lemma LinksSelectedOnly(entries: seq<Json>, committed: seq<AgentService.PromptPointer>, messageId: nat)
    requires Hits(entries, LookupOf(committed, PointerId).Keys).Success?
    ensures var lookup := LookupOf(committed, PointerId);
      var hits := Hits(entries, lookup.Keys).value;
      (forall h :: h in hits ==> h.id in lookup) &&
      var links := LinksOf(hits, lookup, messageId);
      (forall i :: 0 <= i < |links| ==>
         links[i].pointerId in Keys(committed, PointerId)
         && lookup[links[i].pointerId] in committed
         && links[i].sheetId == lookup[links[i].pointerId].sheetId
         && links[i].sheetName == lookup[links[i].pointerId].sheetName
         && hits[i].index < |entries|
         && Names(entries[hits[i].index], lookup.Keys)
         && links[i].reason == Get(entries[hits[i].index].fields, "reason", JStr("")))
      && (forall i, j :: 0 <= i < j < |links| ==> hits[i].index < hits[j].index)
  {
    var lookup := LookupOf(committed, PointerId);
    LookupFacts(committed, PointerId);
    HitsSound(entries, lookup.Keys);
  }

  /**
   * The text the highlights are extracted from, `shortAnswer + " " +
   * narrative`, or the `TypeError` that concatenation raises when either
   * is not a string.
   */
  function Combined(reply: AgentService.AgentReply): (r: Result<string, string>)
    ensures r.Success? <==> reply.shortAnswer.JStr? && reply.narrative.JStr?
    ensures r.Success? ==> r.value == reply.shortAnswer.s + " " + reply.narrative.s
  {
    match reply.shortAnswer
    case JStr(a) =>
      if reply.narrative.JStr? then Success(a + " " + reply.narrative.s)
      else Failure("can only concatenate str (not \"" + TypeName(reply.narrative) + "\") to str")
    case JArr(_) => Failure("can only concatenate list (not \"str\") to list")
    case _ => Failure("unsupported operand type(s) for +: '" + TypeName(reply.shortAnswer) + "' and 'str'")
  }

  /** What the agent is: question, history and committed pointers in; a reply or the raised message out. */
  type Agent = (string, seq<HistoryEntry>, seq<AgentService.PromptPointer>) -> Result<AgentService.AgentReply, string>

  /** The question's row, stored at time `t`. */
  function Asked(sessionId: string, query: string, t: nat): MessageRow {
    MessageRow(t, sessionId, "user", JStr(query), JNull, t)
  }

  /** The answer's row, stored at time `t`. */
  function Answered(sessionId: string, reply: AgentService.AgentReply, t: nat): MessageRow {
    MessageRow(t, sessionId, "agent", reply.shortAnswer, reply.narrative, t)
  }

  /** The reply the router goes on with when the question is stored at time `t` after the messages `before`. */
  function ReplyFor(agent: Agent, sessionId: string, query: string, before: seq<MessageRow>, t: nat,
                    committed: seq<AgentService.PromptPointer>): AgentService.AgentReply {
    ReplyOf(agent(query, History(SessionRows(before + [Asked(sessionId, query, t)], sessionId, Some(t))), committed))
  }

  /**
   * The history the agent sees is the session's earlier messages, in
   * creation order, without the question just stored.
   */
  lemma PriorMessages(before: seq<MessageRow>, sessionId: string, query: string, t: nat)
    requires Ascending(before) && forall i :: 0 <= i < |before| ==> before[i].id < t
    ensures var prior := SessionRows(before + [Asked(sessionId, query, t)], sessionId, Some(t));
      (forall m :: m in prior <==> m in before && m.sessionId == sessionId)
      && Asked(sessionId, query, t) !in prior && Ascending(prior)
  {
    var all := before + [Asked(sessionId, query, t)];
    assert all[..|all| - 1] == before;
    SessionRowsMembers(before, sessionId, Some(t));
    SessionRowsAscending(before, sessionId, Some(t));
  }

  /** The walk over a selection against the lookup: every kept id is one of its keys. */
  function Kept(selected: Json, lookup: map<string, AgentService.PromptPointer>): (r: Result<seq<Hit>, string>)
    ensures r.Success? ==> forall h :: h in r.value ==> h.id in lookup
  {
    HitsKnown(selected, lookup.Keys);
    HitsOf(selected, lookup.Keys)
  }

  /** The walk over the selection of the reply `ReplyFor` gives. */
  function SelectionFor(agent: Agent, sessionId: string, query: string, before: seq<MessageRow>, t: nat,
                        committed: seq<AgentService.PromptPointer>): Result<seq<Hit>, string>
  {
    Kept(ReplyFor(agent, sessionId, query, before, t, committed).selectedPointers, LookupOf(committed, PointerId))
  }

  // ---------------------------------------------------------------------
  // The store
  // ---------------------------------------------------------------------

  class SessionStore {
    var sessions: map<string, SessionRow>
    var messages: seq<MessageRow>
    var links: seq<PointerLink>
    /** The next message id and the current time. */
    var next: nat

    /**
     * Sessions are filed under their own ids; every stored message is
     * older than the clock, and messages are stored in creation order.
     */
    ghost predicate Valid()
      reads this
    {
      (forall k :: k in sessions ==> sessions[k].id == k)
      && Ascending(messages) && forall i :: 0 <= i < |messages| ==> messages[i].id < next && messages[i].createdAt < next
    }

    constructor ()
      ensures Valid() && sessions == map[] && messages == [] && links == [] && next == 0
    {
      sessions := map[];
      messages := [];
      links := [];
      next := 0;
    }

    /** `update_session`: the title changes only when one is supplied; the session is touched either way. */
    method UpdateSession(sessionId: string, userId: string, title: Option<string>) returns (r: Result<SessionView, Error>)
      requires Valid()
      modifies this
      ensures Valid()
      ensures VerifyOwnership(old(sessions), sessionId, userId).Failure? ==>
        r == Failure(VerifyOwnership(old(sessions), sessionId, userId).error) && unchanged(this)
      ensures VerifyOwnership(old(sessions), sessionId, userId).Success? ==>
        var s := old(sessions)[sessionId];
        var s' := s.(title := if title.Some? then title else s.title, updatedAt := old(next));
        sessions == old(sessions)[sessionId := s'] && messages == old(messages) && links == old(links)
        && next == old(next) + 1
        && r == Success(SessionView(s', SessionRows(messages, sessionId, None)))
    {
      var v := VerifyOwnership(sessions, sessionId, userId);
      if v.Failure? {
        return Failure(v.error);
      }
      var s := v.value;
      if title.Some? {
        s := s.(title := title);
      }
      s := s.(updatedAt := next);
      sessions := sessions[sessionId := s];
      next := next + 1;
      return Success(SessionView(s, SessionRows(messages, sessionId, None)));
    }

    /** Adds one message row, stamped with the clock. */
    method Store(sessionId: string, role: string, content: Json, narrative: Json) returns (row: MessageRow)
      requires Valid()
      modifies this
      ensures Valid()
      ensures row == MessageRow(old(next), sessionId, role, content, narrative, old(next))
      ensures messages == old(messages) + [row] && next == old(next) + 1
      ensures sessions == old(sessions) && links == old(links)
    {
      row := MessageRow(next, sessionId, role, content, narrative, next);
      messages := messages + [row];
      next := next + 1;
    }

    /**
     * `create_message`. The question is stored first; the agent sees the
     * session's other messages in creation order; the answer is stored
     * whatever the agent did; a pointer record is made for each selected
     * committed pointer; then the title rule and the touch. An exception
     * while walking the selection leaves both messages stored and nothing
     * else; the highlight text is built after everything is stored.
     */
    method CreateMessage(sessionId: string, userId: string, query: string,
                         committed: seq<AgentService.PromptPointer>, agent: Agent)
      returns (r: Result<MessageView, Error>)
      requires Valid()
      modifies this
      ensures Valid()
      ensures VerifyOwnership(old(sessions), sessionId, userId).Failure? ==>
        r == Failure(VerifyOwnership(old(sessions), sessionId, userId).error) && unchanged(this)
      ensures VerifyOwnership(old(sessions), sessionId, userId).Success? ==>
        messages == old(messages) + [Asked(sessionId, query, old(next)),
                                     Answered(sessionId, ReplyFor(agent, sessionId, query, old(messages), old(next), committed), old(next) + 1)]
      ensures VerifyOwnership(old(sessions), sessionId, userId).Success? &&
              SelectionFor(agent, sessionId, query, old(messages), old(next), committed).Failure? ==>
        r == Failure(Raised(SelectionFor(agent, sessionId, query, old(messages), old(next), committed).error))
        && sessions == old(sessions) && links == old(links) && next == old(next) + 2
      ensures VerifyOwnership(old(sessions), sessionId, userId).Success? &&
              SelectionFor(agent, sessionId, query, old(messages), old(next), committed).Success? ==>
        var reply := ReplyFor(agent, sessionId, query, old(messages), old(next), committed);
        var hits := SelectionFor(agent, sessionId, query, old(messages), old(next), committed).value;
        var lookup := LookupOf(committed, PointerId);
        var added := LinksOf(hits, lookup, old(next) + 1);
        var s := old(sessions)[sessionId];
        links == old(links) + added && next == old(next) + 3
        && sessions == old(sessions)[sessionId := s.(title := NewTitle(s.title, CountIn(messages, sessionId), query),
                                                     updatedAt := old(next) + 2)]
        && r == (if Combined(reply).Success? then Success(MessageView(messages[|messages| - 1], added))
                 else Failure(Raised(Combined(reply).error)))
    {
      var v := VerifyOwnership(sessions, sessionId, userId);
      if v.Failure? {
        return Failure(v.error);
      }
      var asked := Store(sessionId, "user", JStr(query), JNull);
      var prior := SessionRows(messages, sessionId, Some(asked.id));
      var history := BuildHistory(prior);
      var lookup := BuildLookup(committed, PointerId);
      var reply := ReplyOf(agent(query, history, committed));
      assert reply == ReplyFor(agent, sessionId, query, old(messages), old(next), committed);
      var answered := Store(sessionId, "agent", reply.shortAnswer, reply.narrative);
      ghost var selection := SelectionFor(agent, sessionId, query, old(messages), old(next), committed);
      assert Kept(reply.selectedPointers, lookup) == selection;
      assert messages == old(messages) + [asked, answered];
      assert v.value == old(sessions)[sessionId] && v.value.id == sessionId;
      r := Conclude(v.value, query, reply, answered, lookup);
    }

    /**
     * The rest of `create_message` once the answer is stored: the pointer
     * records, the title rule, the touch, and the highlight text.
     */
    method Conclude(s: SessionRow, query: string, reply: AgentService.AgentReply, answered: MessageRow,
                    lookup: map<string, AgentService.PromptPointer>)
      returns (r: Result<MessageView, Error>)
      requires Valid()
      modifies this
      ensures Valid() && messages == old(messages)
      ensures Kept(reply.selectedPointers, lookup).Failure? ==>
        r == Failure(Raised(Kept(reply.selectedPointers, lookup).error)) && unchanged(this)
      ensures Kept(reply.selectedPointers, lookup).Success? ==>
        var added := LinksOf(Kept(reply.selectedPointers, lookup).value, lookup, answered.id);
        links == old(links) + added && next == old(next) + 1
        && sessions == old(sessions)[s.id := s.(title := NewTitle(s.title, CountIn(messages, s.id), query), updatedAt := old(next))]
        && r == (if Combined(reply).Success? then Success(MessageView(answered, added)) else Failure(Raised(Combined(reply).error)))
    {
      var hits: Result<seq<Hit>, string>;
      if reply.selectedPointers.JArr? {
        hits := CollectHits(reply.selectedPointers.items, lookup.Keys);
      } else {
        hits := HitsOf(reply.selectedPointers, lookup.Keys);
      }
      assert hits == Kept(reply.selectedPointers, lookup);
      if hits.Failure? {
        return Failure(Raised(hits.error));
      }
      var added := LinksOf(hits.value, lookup, answered.id);
      links := links + added;
      var s' := s.(title := NewTitle(s.title, CountIn(messages, s.id), query), updatedAt := next);
      sessions := sessions[s.id := s'];
      next := next + 1;
      var combined := Combined(reply);
      if combined.Failure? {
        return Failure(Raised(combined.error));
      }
      return Success(MessageView(answered, added));
    }
  }
}
