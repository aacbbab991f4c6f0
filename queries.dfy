/**
 * The voice-query router: who may see a query, which queries a caller may
 * list, and `create_query`, which records a question under the right user,
 * asks the model with the project's committed pointers, and stores a
 * result for each committed pointer the reply selects.
 *
 * Roles: an admin sees everything; anyone else sees only their own
 * queries, and only in projects they are assigned to. The database is a
 * store object whose counter stands for the generated ids and the clock;
 * the project, user and assignment tables are read-only parameters. The
 * model call is a parameter too: the reply dictionary, or the message of
 * the exception it raised.
 */
module Queries {
  import opened Wrappers
  import opened JsonValue
  import opened Selection
  import Sorting

  datatype User = User(id: string, role: string)

  /** A `UserProject` row. */
  datatype Assignment = Assignment(userId: string, projectId: string)

  /** A stored query; `response` holds whatever narrative the reply gave. */
  datatype QueryRow = QueryRow(id: nat, userId: string, projectId: string, transcript: string, response: Json, createdAt: nat)

  /** A `QueryResult` row; `position` is the entry's place in the reply, from which the relevance score is computed. */
  datatype ResultRow = ResultRow(queryId: nat, pointerId: string, position: nat, reason: Json)

  /** A committed pointer with its file's id and name; the bounding box is carried as it is. */
  datatype CommittedPointer = CommittedPointer(id: string, sheetId: string, sheetName: string, bounds: Json)

  datatype PointerResult = PointerResult(id: string, sheetId: string, sheetName: string, reason: Json, bbox: Json)

  datatype QueryResponse = QueryResponse(id: nat, query: string, contextPointers: seq<PointerResult>, narrative: Json, createdAt: nat)

  /** An `HTTPException`, or another exception that ends the request with a server error. */
  datatype Error = HttpError(status: nat, detail: string) | Raised(message: string)

  // ---------------------------------------------------------------------
  // Access rules
  // ---------------------------------------------------------------------

  predicate IsAdmin(u: User) {
    u.role == "admin"
  }

  predicate Assigned(assignments: seq<Assignment>, userId: string, projectId: string) {
    Assignment(userId, projectId) in assignments
  }

  const NotAssigned := HttpError(403, "User is not assigned to this project")

  /** `_require_project_assignment`: nothing, or the 403 it raises. */
  function RequireProjectAssignment(assignments: seq<Assignment>, userId: string, projectId: string): (r: Option<Error>)
    ensures r.None? <==> Assigned(assignments, userId, projectId)
    ensures r.Some? ==> r.value == NotAssigned
  {
    if Assigned(assignments, userId, projectId) then None else Some(NotAssigned)
  }

  /** `_require_query_access`: admins always pass; anyone else must own the query and be assigned to its project. */
  function RequireQueryAccess(assignments: seq<Assignment>, user: User, q: QueryRow): (r: Option<Error>)
    ensures r.None? <==> IsAdmin(user) || (q.userId == user.id && Assigned(assignments, user.id, q.projectId))
    ensures r.Some? ==> r.value.HttpError? && r.value.status == 403
  {
    if IsAdmin(user) then None
    else if q.userId != user.id then Some(HttpError(403, "Forbidden"))
    else RequireProjectAssignment(assignments, user.id, q.projectId)
  }

  // ---------------------------------------------------------------------
  // Listing
  // ---------------------------------------------------------------------

  /** The rows a filter keeps, in order. */
  function Where(rows: seq<QueryRow>, keep: QueryRow -> bool): (r: seq<QueryRow>)
    ensures |r| <= |rows|
    decreases |rows|
  {
    if rows == [] then []
    else
      var last := rows[|rows| - 1];
      assert rows == rows[..|rows| - 1] + [last];
      Where(rows[..|rows| - 1], keep) + (if keep(last) then [last] else [])
  }

  /** The projects a user is assigned to. */
  function ProjectsOf(assignments: seq<Assignment>, userId: string): (r: seq<string>)
    ensures forall p :: p in r <==> Assigned(assignments, userId, p)
    decreases |assignments|
  {
    if assignments == [] then []
    else
      var last := assignments[|assignments| - 1];
      assert assignments == assignments[..|assignments| - 1] + [last];
      ProjectsOf(assignments[..|assignments| - 1], userId) + (if last.userId == userId then [last.projectId] else [])
  }

  /** `ORDER BY created_at DESC` */
  predicate NewerFirst(a: QueryRow, b: QueryRow) {
    a.createdAt >= b.createdAt
  }

  /** SQLite's `LIMIT`: a negative count means no limit. */
  function Limit(rows: seq<QueryRow>, n: int): (r: seq<QueryRow>)
    ensures |r| <= |rows| && r == rows[..|r|]
    ensures n >= 0 ==> |r| <= n
    ensures n < 0 || n >= |rows| ==> r == rows
  {
    if n < 0 || n >= |rows| then rows else rows[..n]
  }

  /** The queries a caller may list under the given filters. */
  predicate InScope(user: User, userFilter: Option<string>, projectFilter: Option<string>,
                    assignments: seq<Assignment>, q: QueryRow) {
    if IsAdmin(user) then
      (Filled(userFilter) ==> q.userId == userFilter.value) && (Filled(projectFilter) ==> q.projectId == projectFilter.value)
    else
      q.userId == user.id
      && (if Filled(projectFilter) then q.projectId == projectFilter.value else Assigned(assignments, user.id, q.projectId))
  }


  /** Filtering a concatenation filters each part. */
  lemma {:induction false} WhereAppend(a: seq<QueryRow>, b: seq<QueryRow>, g: QueryRow -> bool)
    ensures Where(a + b, g) == Where(a, g) + Where(b, g)
    decreases |b|
  {
    if b == [] {
      assert a + b == a;
    } else {
      var init := b[..|b| - 1];
      var last := b[|b| - 1];
      assert (a + b)[..|a + b| - 1] == a + init;
      assert (a + b)[|a + b| - 1] == last;
      WhereAppend(a, init, g);
    }
  }

  /** Keeping the rows two filters both keep is filtering twice. */
  lemma {:induction false} WhereTwice(rows: seq<QueryRow>, f: QueryRow -> bool, g: QueryRow -> bool, h: QueryRow -> bool)
    requires forall k :: 0 <= k < |rows| ==> (h(rows[k]) <==> f(rows[k]) && g(rows[k]))
    ensures Where(Where(rows, f), g) == Where(rows, h)
    decreases |rows|
  {
    if rows != [] {
      var init := rows[..|rows| - 1];
      var last := rows[|rows| - 1];
      assert forall k :: 0 <= k < |init| ==> init[k] == rows[k];
      WhereTwice(init, f, g, h);
      var kept := if f(last) then [last] else [];
      assert Where(rows, f) == Where(init, f) + kept;
      WhereAppend(Where(init, f), kept, g);
      if f(last) {
        assert Where(kept, g) == Where([], g) + (if g(last) then [last] else []);
      }
    }
  }

  /** Two filters that agree on every row keep the same rows. */
  lemma {:induction false} WhereAgree(rows: seq<QueryRow>, f: QueryRow -> bool, g: QueryRow -> bool)
    requires forall k :: 0 <= k < |rows| ==> (f(rows[k]) <==> g(rows[k]))
    ensures Where(rows, f) == Where(rows, g)
    decreases |rows|
  {
    if rows != [] {
      var init := rows[..|rows| - 1];
      assert forall k :: 0 <= k < |init| ==> init[k] == rows[k];
      WhereAgree(init, f, g);
    }
  }

  /** A filter that keeps every row keeps the list as it is. */
  lemma {:induction false} WhereAll(rows: seq<QueryRow>, f: QueryRow -> bool)
    requires forall k :: 0 <= k < |rows| ==> f(rows[k])
    ensures Where(rows, f) == rows
    decreases |rows|
  {
    if rows != [] {
      var init := rows[..|rows| - 1];
      assert forall k :: 0 <= k < |init| ==> init[k] == rows[k];
      var last := rows[|rows| - 1];
      WhereAll(init, f);
      assert Where(rows, f) == Where(init, f) + [last];
    }
  }

  /** The filter the listing applies, as a function of the caller and the query parameters. */
  function ScopeOf(user: User, userFilter: Option<string>, projectFilter: Option<string>,
                   assignments: seq<Assignment>): QueryRow -> bool {
    (q: QueryRow) => InScope(user, userFilter, projectFilter, assignments, q)
  }

  /** The rows in scope, in table order: what the filtered query selects before ordering and `LIMIT`. */
  function Scoped(queries: seq<QueryRow>, user: User, userFilter: Option<string>, projectFilter: Option<string>,
                  assignments: seq<Assignment>): seq<QueryRow> {
    Where(queries, ScopeOf(user, userFilter, projectFilter, assignments))
  }

  /** A filter keeps the rows it accepts and no others. */
  lemma {:induction false} WhereMembers(rows: seq<QueryRow>, keep: QueryRow -> bool)
    ensures forall q :: q in Where(rows, keep) <==> q in rows && keep(q)
    decreases |rows|
  {
    if rows != [] {
      var init := rows[..|rows| - 1];
      var last := rows[|rows| - 1];
      WhereMembers(init, keep);
      assert rows == init + [last];
    }
  }

  /** A filter keeps each row at most as often as the table holds it. */
  lemma {:induction false} WhereBag(rows: seq<QueryRow>, keep: QueryRow -> bool)
    ensures multiset(Where(rows, keep)) <= multiset(rows)
    decreases |rows|
  {
    if rows != [] {
      var init := rows[..|rows| - 1];
      var last := rows[|rows| - 1];
      WhereBag(init, keep);
      assert rows == init + [last];
      assert multiset(rows) == multiset(init) + multiset{last};
    }
  }

  /** In a list sorted newest first, every row is no older than any row after it. */
  lemma {:induction false} NewerBefore(s: seq<QueryRow>, i: nat, j: nat)
    requires Sorting.SortedBy(s, NewerFirst) && i <= j < |s|
    ensures NewerFirst(s[i], s[j])
    decreases j - i
  {
    if i < j {
      NewerBefore(s, i, j - 1);
    }
  }

  /**
   * Cutting a list sorted newest first after `n` rows: the rows cut off
   * are exactly the ones past the cut, and none is newer than a row kept.
   */
  lemma CutOlder(s: seq<QueryRow>, n: nat)
    requires Sorting.SortedBy(s, NewerFirst) && n <= |s|
    ensures multiset(s) - multiset(s[..n]) == multiset(s[n..])
    ensures forall p, q :: p in multiset(s) - multiset(s[..n]) && q in s[..n] ==> NewerFirst(q, p)
  {
    assert s == s[..n] + s[n..];
    assert multiset(s) == multiset(s[..n]) + multiset(s[n..]);
    forall p, q | p in multiset(s[n..]) && q in s[..n]
      ensures NewerFirst(q, p)
    {
      var a :| 0 <= a < n && s[a] == q;
      var b :| n <= b < |s| && s[b] == p by {
        assert p in s[n..];
      }
      NewerBefore(s, a, b);
    }
  }

  /** A leading part of a sorted list is sorted, and holds nothing the list does not. */
  lemma PrefixFacts<T>(s: seq<T>, n: nat, le: (T, T) -> bool)
    requires n <= |s|
    ensures Sorting.SortedBy(s, le) ==> Sorting.SortedBy(s[..n], le)
    ensures multiset(s[..n]) <= multiset(s)
  {
    assert s == s[..n] + s[n..];
  }

  /** The filters `list_queries` applies, one per `filter` call. */
  function ByUser(id: string): QueryRow -> bool {
    (q: QueryRow) => q.userId == id
  }

  function ByProject(id: string): QueryRow -> bool {
    (q: QueryRow) => q.projectId == id
  }

  function InProjects(ids: seq<string>): QueryRow -> bool {
    (q: QueryRow) => q.projectId in ids
  }

  /** An admin's filters select exactly the rows in scope. */
  lemma AdminScope(queries: seq<QueryRow>, user: User, userFilter: Option<string>, projectFilter: Option<string>,
                   assignments: seq<Assignment>)
    requires IsAdmin(user)
    ensures var byUser := if Filled(userFilter) then Where(queries, ByUser(userFilter.value)) else queries;
      Scoped(queries, user, userFilter, projectFilter, assignments)
      == if Filled(projectFilter) then Where(byUser, ByProject(projectFilter.value)) else byUser
  {
    var scope := ScopeOf(user, userFilter, projectFilter, assignments);
    if Filled(userFilter) && Filled(projectFilter) {
      WhereTwice(queries, ByUser(userFilter.value), ByProject(projectFilter.value), scope);
    } else if Filled(userFilter) {
      WhereAgree(queries, ByUser(userFilter.value), scope);
    } else if Filled(projectFilter) {
      WhereAgree(queries, ByProject(projectFilter.value), scope);
    } else {
      WhereAll(queries, scope);
    }
  }

  /** Anyone else, naming a project they are assigned to, sees their own rows in it. */
  lemma ProjectScope(queries: seq<QueryRow>, user: User, userFilter: Option<string>, projectFilter: Option<string>,
                     assignments: seq<Assignment>)
    requires !IsAdmin(user) && Filled(projectFilter)
    ensures Scoped(queries, user, userFilter, projectFilter, assignments)
      == Where(Where(queries, ByUser(user.id)), ByProject(projectFilter.value))
  {
    WhereTwice(queries, ByUser(user.id), ByProject(projectFilter.value), ScopeOf(user, userFilter, projectFilter, assignments));
  }

  /** Anyone else, naming no project, sees their own rows in the projects assigned to them. */
  lemma AssignedScope(queries: seq<QueryRow>, user: User, userFilter: Option<string>, projectFilter: Option<string>,
                      assignments: seq<Assignment>)
    requires !IsAdmin(user) && !Filled(projectFilter)
    ensures Scoped(queries, user, userFilter, projectFilter, assignments)
      == Where(Where(queries, ByUser(user.id)), InProjects(ProjectsOf(assignments, user.id)))
  {
    WhereTwice(queries, ByUser(user.id), InProjects(ProjectsOf(assignments, user.id)),
               ScopeOf(user, userFilter, projectFilter, assignments));
  }

  /** With no project assigned and none named, nothing is in scope. */
  lemma NothingAssigned(queries: seq<QueryRow>, user: User, userFilter: Option<string>, projectFilter: Option<string>,
                        assignments: seq<Assignment>)
    requires !IsAdmin(user) && !Filled(projectFilter) && ProjectsOf(assignments, user.id) == []
    ensures Scoped(queries, user, userFilter, projectFilter, assignments) == []
  {
    var r := Scoped(queries, user, userFilter, projectFilter, assignments);
    WhereMembers(queries, ScopeOf(user, userFilter, projectFilter, assignments));
    assert forall q :: q in r ==> q.projectId in ProjectsOf(assignments, user.id);
    FirstIn(r);
  }

  /** A non-empty list holds its first element. */
  lemma FirstIn(s: seq<QueryRow>)
    ensures s != [] ==> s[0] in s
  {
  }

  /**
   * Ordering and trimming the rows in scope: the listing holds rows in
   * scope only, newest first, `limit` of them or all when there are fewer
   * or the limit is negative, and every row in scope it leaves out is no
   * newer than every row it holds.
   */
  lemma ListingFacts(queries: seq<QueryRow>, limit: int, user: User, userFilter: Option<string>,
                     projectFilter: Option<string>, assignments: seq<Assignment>)
    ensures Sorting.Total(NewerFirst)
    ensures var scoped := Scoped(queries, user, userFilter, projectFilter, assignments);
      var listed := Limit(Sorting.SortBy(scoped, NewerFirst), limit);
      Sorting.SortedBy(listed, NewerFirst)
      && multiset(listed) <= multiset(scoped) && multiset(scoped) <= multiset(queries)
      && |listed| == (if limit < 0 || limit >= |scoped| then |scoped| else limit)
      && (forall p, q :: p in multiset(scoped) - multiset(listed) && q in listed ==> NewerFirst(q, p))
  {
    var scoped := Scoped(queries, user, userFilter, projectFilter, assignments);
    var sorted := Sorting.SortBy(scoped, NewerFirst);
    var listed := Limit(sorted, limit);
    WhereBag(queries, ScopeOf(user, userFilter, projectFilter, assignments));
    PrefixFacts(sorted, |listed|, NewerFirst);
    CutOlder(sorted, |listed|);
  }

  /** The listing holds only rows in scope, and with no effective limit it holds all of them. */
  lemma ListingMembers(queries: seq<QueryRow>, limit: int, user: User, userFilter: Option<string>,
                       projectFilter: Option<string>, assignments: seq<Assignment>)
    requires !IsAdmin(user) && Filled(projectFilter) ==> Assigned(assignments, user.id, projectFilter.value)
    ensures Sorting.Total(NewerFirst)
    ensures var listed := Limit(Sorting.SortBy(Scoped(queries, user, userFilter, projectFilter, assignments), NewerFirst), limit);
      (forall q :: q in listed ==> q in queries && InScope(user, userFilter, projectFilter, assignments, q))
      && (!IsAdmin(user) ==> forall q :: q in listed ==> q.userId == user.id && Assigned(assignments, user.id, q.projectId))
      && (limit < 0 || limit >= |queries| ==>
            forall q :: q in queries && InScope(user, userFilter, projectFilter, assignments, q) ==> q in listed)
  {
    var scoped := Scoped(queries, user, userFilter, projectFilter, assignments);
    var sorted := Sorting.SortBy(scoped, NewerFirst);
    var listed := Limit(sorted, limit);
    PrefixFacts(sorted, |listed|, NewerFirst);
    WhereMembers(queries, ScopeOf(user, userFilter, projectFilter, assignments));
    forall q | q in listed ensures q in scoped {
      assert q in multiset(listed);
    }
    forall q | q in scoped ensures q in sorted {
      assert q in multiset(sorted);
    }
  }

  /**
   * `list_queries`. An admin narrows by the given user and project; anyone
   * else sees their own queries only, in the requested project when it is
   * given (which they must be assigned to), otherwise in every project
   * assigned to them, and nothing at all when there is none. The result
   * is the rows in scope, newest first, cut to `limit` rows (SQLite
   * ignores a negative limit).
   */
  method ListQueries(user: User, userFilter: Option<string>, projectFilter: Option<string>, limit: int,
                     queries: seq<QueryRow>, assignments: seq<Assignment>) returns (r: Result<seq<QueryRow>, Error>)
    ensures r.Failure? <==> !IsAdmin(user) && Filled(projectFilter) && !Assigned(assignments, user.id, projectFilter.value)
    ensures r.Failure? ==> r.error == NotAssigned
    ensures r.Success? ==> forall q :: q in r.value ==> q in queries && InScope(user, userFilter, projectFilter, assignments, q)
    ensures r.Success? && !IsAdmin(user) ==>
      forall q :: q in r.value ==> q.userId == user.id && Assigned(assignments, user.id, q.projectId)
    ensures r.Success? ==> Sorting.SortedBy(r.value, NewerFirst) && multiset(r.value) <= multiset(queries)
    ensures r.Success? ==> multiset(r.value) <= multiset(Scoped(queries, user, userFilter, projectFilter, assignments))
    ensures r.Success? ==> var n := |Scoped(queries, user, userFilter, projectFilter, assignments)|;
      |r.value| == if limit < 0 || limit >= n then n else limit
    ensures r.Success? ==> forall p, q ::
      p in multiset(Scoped(queries, user, userFilter, projectFilter, assignments)) - multiset(r.value) && q in r.value ==>
      NewerFirst(q, p)
    ensures r.Success? && (limit < 0 || limit >= |queries|) ==>
      forall q :: q in queries && InScope(user, userFilter, projectFilter, assignments, q) ==> q in r.value
  {
    var rows := queries;
    if IsAdmin(user) {
      if Filled(userFilter) {
        rows := Where(rows, ByUser(userFilter.value));
      }
      if Filled(projectFilter) {
        rows := Where(rows, ByProject(projectFilter.value));
      }
      AdminScope(queries, user, userFilter, projectFilter, assignments);
    } else {
      rows := Where(rows, ByUser(user.id));
      if Filled(projectFilter) {
        if !Assigned(assignments, user.id, projectFilter.value) {
          return Failure(NotAssigned);
        }
        rows := Where(rows, ByProject(projectFilter.value));
        ProjectScope(queries, user, userFilter, projectFilter, assignments);
      } else {
        var assignedIds := ProjectsOf(assignments, user.id);
        if assignedIds == [] {
          NothingAssigned(queries, user, userFilter, projectFilter, assignments);
          ListingFacts(queries, limit, user, userFilter, projectFilter, assignments);
          return Success([]);
        }
        rows := Where(rows, InProjects(assignedIds));
        AssignedScope(queries, user, userFilter, projectFilter, assignments);
      }
    }
    ListingFacts(queries, limit, user, userFilter, projectFilter, assignments);
    ListingMembers(queries, limit, user, userFilter, projectFilter, assignments);
    r := Success(Limit(Sorting.SortBy(rows, NewerFirst), limit));
  }

  // ---------------------------------------------------------------------
  // Creating a query
  // ---------------------------------------------------------------------

  const NoPointersText: string :=
    "No committed context pointers found for this project. Make sure the plans have been processed and committed."

  const FailedText: string := "Something went wrong processing your question. Please try again."

  /** The user a new query is recorded under: the caller, unless an admin names an existing user. */
  function Owner(current: User, requested: Option<string>, projectId: string,
                 users: set<string>, assignments: seq<Assignment>): (r: Result<string, Error>)
    ensures !IsAdmin(current) ==> (r.Success? <==> Assigned(assignments, current.id, projectId))
    ensures !IsAdmin(current) && r.Success? ==> r.value == current.id
    ensures IsAdmin(current) ==> (r.Success? <==> requested.Some? && requested.value in users)
    ensures IsAdmin(current) && r.Success? ==> r.value == requested.value
    ensures r.Failure? ==> r.error.HttpError? && r.error.status == (if IsAdmin(current) then 404 else 403)
  {
    if !IsAdmin(current) then
      match RequireProjectAssignment(assignments, current.id, projectId)
      case Some(e) => Failure(e)
      case None => Success(current.id)
    else if requested.Some? && requested.value in users then Success(requested.value)
    else Failure(HttpError(404, "User not found"))
  }

  /** Whether `len()` accepts a value. */
  predicate Sized(j: Json) {
    j.JStr? || j.JArr? || j.JObj?
  }

  /** How the model's turn ends: a canned text, or a narrative with the walk over the selection. */
  datatype Answer = Canned(text: string) | Narrated(narrative: Json, hits: Result<seq<Hit>, string>)

  /**
   * No committed pointer means no model call; a call that raises, or a
   * selection whose length cannot be taken for the log line, ends in the
   * apology; otherwise the reply's narrative and selection are used.
   */
  function AnswerOf(committed: seq<CommittedPointer>, reply: Result<map<string, Json>, string>): (a: Answer)
    ensures committed == [] ==> a == Canned(NoPointersText)
    ensures committed != [] && reply.Failure? ==> a == Canned(FailedText)
    ensures a.Narrated? ==> reply.Success? && a.narrative == Get(reply.value, "narrative", JStr(""))
    ensures a.Narrated? && a.hits.Success? ==> forall h :: h in a.hits.value ==> h.id in LookupOf(committed, PointerId)
  {
    if committed == [] then Canned(NoPointersText)
    else if reply.Failure? || !Sized(Get(reply.value, "selectedPointers", JArr([]))) then Canned(FailedText)
    else
      var selected := Get(reply.value, "selectedPointers", JArr([]));
      var known := LookupOf(committed, PointerId).Keys;
      HitsKnown(selected, known);
      Narrated(Get(reply.value, "narrative", JStr("")), HitsOf(selected, known))
  }

  function PointerId(p: CommittedPointer): string {
    p.id
  }

  /** The result rows for the kept entries, under the query's id. */
  function ResultsOf(hits: seq<Hit>, queryId: nat): (r: seq<ResultRow>)
    ensures |r| == |hits|
    ensures forall i :: 0 <= i < |hits| ==> r[i] == ResultRow(queryId, hits[i].id, hits[i].index, hits[i].reason)
  {
    seq(|hits|, i requires 0 <= i < |hits| => ResultRow(queryId, hits[i].id, hits[i].index, hits[i].reason))
  }

  /** The pointers returned for the kept entries, with their sheet and box from the lookup. */
  function PointersOf(hits: seq<Hit>, lookup: map<string, CommittedPointer>): (r: seq<PointerResult>)
    requires forall h :: h in hits ==> h.id in lookup
    ensures |r| == |hits|
    ensures forall i :: 0 <= i < |hits| ==>
      r[i] == PointerResult(hits[i].id, lookup[hits[i].id].sheetId, lookup[hits[i].id].sheetName, hits[i].reason, lookup[hits[i].id].bounds)
  {
    seq(|hits|, i requires 0 <= i < |hits| =>
      PointerResult(hits[i].id, lookup[hits[i].id].sheetId, lookup[hits[i].id].sheetName, hits[i].reason, lookup[hits[i].id].bounds))
  }

  /**
   * Results are stored and returned only for committed pointers the reply
   * names, stored and returned in the same order, with their reply
   * positions increasing.
   */
  lemma ResultsSelectedOnly(committed: seq<CommittedPointer>, reply: Result<map<string, Json>, string>, queryId: nat)
    requires AnswerOf(committed, reply).Narrated? && AnswerOf(committed, reply).hits.Success?
    ensures var hits := AnswerOf(committed, reply).hits.value;
      var lookup := LookupOf(committed, PointerId);
      var stored := ResultsOf(hits, queryId);
      var returned := PointersOf(hits, lookup);
      (forall i :: 0 <= i < |stored| ==>
         stored[i].pointerId == returned[i].id && stored[i].pointerId in Keys(committed, PointerId)
         && lookup[returned[i].id] in committed && stored[i].reason == returned[i].reason)
      && (forall i, j :: 0 <= i < j < |stored| ==> stored[i].position < stored[j].position)
  {
    var hits := AnswerOf(committed, reply).hits.value;
    var lookup := LookupOf(committed, PointerId);
    LookupFacts(committed, PointerId);
    var selected := Get(reply.value, "selectedPointers", JArr([]));
    if selected.JArr? {
      HitsSound(selected.items, lookup.Keys);
    }
  }

  /** Without committed pointers, or when the model call raises, nothing but the canned text is stored. */
  lemma CannedStoresNoResults(committed: seq<CommittedPointer>, reply: Result<map<string, Json>, string>)
    requires committed == [] || reply.Failure?
    ensures AnswerOf(committed, reply).Canned?
    ensures AnswerOf(committed, reply).text == (if committed == [] then NoPointersText else FailedText)
  {
  }

  /** The text stored as the query's response. */
  function ResponseOf(a: Answer): Json {
    match a
    case Canned(text) => JStr(text)
    case Narrated(narrative, _) => narrative
  }

  class QueryStore {
    var queries: seq<QueryRow>
    var results: seq<ResultRow>
    /** The next query id and the current time. */
    var next: nat

    /** Every stored query is older than the clock. */
    ghost predicate Valid()
      reads this
    {
      forall i :: 0 <= i < |queries| ==> queries[i].id < next && queries[i].createdAt < next
    }

    constructor ()
      ensures Valid() && queries == [] && results == [] && next == 0
    {
      queries := [];
      results := [];
      next := 0;
    }

    /**
     * `create_query`. The project must exist and the owner must be
     * settled before anything is stored; then the query row is always
     * stored, and results only when the reply is walked to its end.
     */
    method CreateQuery(current: User, requested: Option<string>, projectId: string, transcript: string,
                       projects: set<string>, users: set<string>, assignments: seq<Assignment>,
                       committed: seq<CommittedPointer>, reply: Result<map<string, Json>, string>)
      returns (r: Result<QueryResponse, Error>)
      requires Valid()
      modifies this
      ensures Valid()
      ensures projectId !in projects ==> r == Failure(HttpError(404, "Project not found")) && unchanged(this)
      ensures projectId in projects && Owner(current, requested, projectId, users, assignments).Failure? ==>
        r == Failure(Owner(current, requested, projectId, users, assignments).error) && unchanged(this)
      ensures projectId in projects && Owner(current, requested, projectId, users, assignments).Success? ==>
        var a := AnswerOf(committed, reply);
        var row := QueryRow(old(next), Owner(current, requested, projectId, users, assignments).value, projectId,
                            transcript, ResponseOf(a), old(next));
        queries == old(queries) + [row] && next == old(next) + 1
        && match a
           case Canned(text) =>
             results == old(results) && r == Success(QueryResponse(row.id, transcript, [], JStr(text), row.createdAt))
           case Narrated(narrative, hits) =>
             if hits.Failure? then results == old(results) && r == Failure(Raised(hits.error))
             else
               results == old(results) + ResultsOf(hits.value, row.id)
               && r == Success(QueryResponse(row.id, transcript, PointersOf(hits.value, LookupOf(committed, PointerId)),
                                             narrative, row.createdAt))
    {
      if projectId !in projects {
        return Failure(HttpError(404, "Project not found"));
      }
      var owner := Owner(current, requested, projectId, users, assignments);
      if owner.Failure? {
        return Failure(owner.error);
      }
      var lookup := BuildLookup(committed, PointerId);
      var a := AnswerOf(committed, reply);
      var row := QueryRow(next, owner.value, projectId, transcript, ResponseOf(a), next);
      queries := queries + [row];
      next := next + 1;
      if a.Canned? {
        return Success(QueryResponse(row.id, transcript, [], JStr(a.text), row.createdAt));
      }
      var hits := a.hits;
      var selected := Get(reply.value, "selectedPointers", JArr([]));
      if selected.JArr? {
        hits := CollectHits(selected.items, lookup.Keys);
      }
      assert hits == a.hits;
      if hits.Failure? {
        return Failure(Raised(hits.error));
      }
      results := results + ResultsOf(hits.value, row.id);
      return Success(QueryResponse(row.id, transcript, PointersOf(hits.value, lookup), a.narrative, row.createdAt));
    }
  }
}
