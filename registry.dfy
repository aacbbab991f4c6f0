/**
 * The context-tree router's in-memory state: one registered job per
 * project, the server-sent-event subscribers of each project with their
 * bounded queues, and the endpoints that read or change them (triggers,
 * the processing status, the reset, the default disciplines).
 *
 * Job ids stand for `uuid4()` and queue ids for the identity of each
 * `asyncio.Queue`: both are drawn from counters, so every new one differs
 * from all earlier ones.
 */
module JobRegistry {
  import opened Wrappers
  import opened Text
  import opened ContextData
  import opened Lifecycle
  import SheetRefs
  import Sorting
  import ContextTreeProcessor

  datatype JobType = PagesJob | DisciplinesJob

  /** An `_active_jobs` entry. */
  datatype Job = Job(jobId: nat, jobType: JobType)

  /** What a subscriber queue carries: a progress event tagged with its job, or the end of a job. */
  datatype Message =
    | Progress(event: Event, jobId: nat)
    | PagesFinished(jobId: nat, summary: Summary)
    | DisciplinesFinished(jobId: nat, tally: Tally)

  /** `asyncio.Queue(maxsize=100)` */
  const QueueCapacity: nat := 100

  datatype HttpError = HttpError(status: nat, detail: string)

  const ProjectNotFound := HttpError(404, "Project not found")
  const ResetConflict := HttpError(409, "Cannot reset while processing is in progress")

  datatype TriggerStatus = AlreadyRunning | Started

  datatype TriggerResponse = TriggerResponse(jobId: nat, status: TriggerStatus)

  /** "idle", "processing" or "complete". */
  datatype RunStatus = StatusIdle | StatusProcessing | StatusComplete

  // ---------------------------------------------------------------------
  // Subscriber lists and queues
  // ---------------------------------------------------------------------

  predicate Distinct(ids: seq<nat>) {
    forall i, j :: 0 <= i < j < |ids| ==> ids[i] != ids[j]
  }

  /** `_sse_subscribers.get(project_id, [])` */
  function SubscribersOf(subs: map<nat, seq<nat>>, projectId: nat): seq<nat> {
    if projectId in subs then subs[projectId] else []
  }

  /** `put_nowait` of one message on each listed queue; a full queue drops it. */
  function Offer(queues: map<nat, seq<Message>>, ids: seq<nat>, m: Message): (r: map<nat, seq<Message>>)
    ensures r.Keys == queues.Keys
  {
    map q | q in queues :: if q in ids && |queues[q]| < QueueCapacity then queues[q] + [m] else queues[q]
  }

  /** Several broadcasts in turn. */
  function OfferAll(queues: map<nat, seq<Message>>, ids: seq<nat>, ms: seq<Message>): (r: map<nat, seq<Message>>)
    ensures r.Keys == queues.Keys
    decreases |ms|
  {
    if ms == [] then queues else Offer(OfferAll(queues, ids, ms[..|ms| - 1]), ids, ms[|ms| - 1])
  }

  /** No queue ever holds more than its capacity. */
  predicate Bounded(queues: map<nat, seq<Message>>) {
    forall q :: q in queues ==> |queues[q]| <= QueueCapacity
  }

  /**
   * A broadcast appends the message to every subscribed queue with room,
   * leaves a full queue as it was, never touches another project's queues,
   * and keeps every queue within its capacity.
   */
  lemma OfferDelivers(queues: map<nat, seq<Message>>, ids: seq<nat>, m: Message, q: nat)
    requires Bounded(queues) && q in queues
    ensures Bounded(Offer(queues, ids, m))
    ensures q in ids && |queues[q]| < QueueCapacity ==> Offer(queues, ids, m)[q] == queues[q] + [m]
    ensures q in ids && |queues[q]| == QueueCapacity ==> Offer(queues, ids, m)[q] == queues[q]
    ensures q !in ids ==> Offer(queues, ids, m)[q] == queues[q]
  {
  }

  /** A queue that is subscribed and never fills receives every broadcast message in order. */
  lemma {:induction false} OfferAllDelivers(queues: map<nat, seq<Message>>, ids: seq<nat>, ms: seq<Message>, q: nat)
    requires q in queues && q in ids && |queues[q]| + |ms| <= QueueCapacity
    ensures OfferAll(queues, ids, ms)[q] == queues[q] + ms
    decreases |ms|
  {
    if ms != [] {
      var init := ms[..|ms| - 1];
      OfferAllDelivers(queues, ids, init, q);
      assert init + [ms[|ms| - 1]] == ms;
    }
  }

  /** The next id of a distinct list is not among the earlier ones. */
  lemma NextIsNew(ids: seq<nat>, i: nat)
    requires Distinct(ids) && i < |ids|
    ensures ids[i] !in ids[..i]
    ensures forall q :: q in ids[..i + 1] <==> q in ids[..i] || q == ids[i]
  {
    assert ids[..i + 1] == ids[..i] + [ids[i]];
  }

  /** One more step of a broadcast loop, seen in one queue. */
  lemma OfferStepAt(queues: map<nat, seq<Message>>, ids: seq<nat>, i: nat, m: Message, q: nat)
    requires Distinct(ids) && i < |ids| && q in queues
    ensures var qs := Offer(queues, ids[..i], m);
      Offer(queues, ids[..i + 1], m)[q]
      == if q == ids[i] && |qs[q]| < QueueCapacity then qs[q] + [m] else qs[q]
  {
    NextIsNew(ids, i);
  }

  /** One more step of a broadcast loop over distinct, existing queues. */
  lemma OfferStep(queues: map<nat, seq<Message>>, ids: seq<nat>, i: nat, m: Message)
    requires Distinct(ids) && i < |ids| && ids[i] in queues
    ensures var qs := Offer(queues, ids[..i], m);
      Offer(queues, ids[..i + 1], m)
      == if |qs[ids[i]]| < QueueCapacity then qs[ids[i] := qs[ids[i]] + [m]] else qs
  {
    var x := ids[i];
    var qs := Offer(queues, ids[..i], m);
    var a := Offer(queues, ids[..i + 1], m);
    var c := if |qs[x]| < QueueCapacity then qs[x := qs[x] + [m]] else qs;
    forall q | q in a
      ensures a[q] == c[q]
    {
      OfferStepAt(queues, ids, i, m, q);
    }
    SameMap(a, c);
  }

  /** Two maps with the same keys and the same value at every key are equal. */
  lemma SameMap(a: map<nat, seq<Message>>, c: map<nat, seq<Message>>)
    requires a.Keys == c.Keys && forall q :: q in a ==> a[q] == c[q]
    ensures a == c
  {
  }

  lemma OfferBounded(queues: map<nat, seq<Message>>, ids: seq<nat>, m: Message)
    requires Bounded(queues)
    ensures Bounded(Offer(queues, ids, m))
  {
  }

  /** Python's `list.remove`: drop the first occurrence. */
  function RemoveFirst(s: seq<nat>, x: nat): (r: seq<nat>)
    ensures x in s ==> |r| == |s| - 1
    ensures x !in s ==> r == s
    ensures forall y :: y in r ==> y in s
    ensures forall y :: y in s && y != x ==> y in r
  {
    if s == [] then []
    else if s[0] == x then s[1..]
    else [s[0]] + RemoveFirst(s[1..], x)
  }

  lemma {:induction false} RemoveFirstDistinct(s: seq<nat>, x: nat)
    requires Distinct(s)
    ensures Distinct(RemoveFirst(s, x)) && x !in RemoveFirst(s, x)
  {
    if s != [] && s[0] != x {
      var tail := s[1..];
      assert Distinct(tail) by {
        forall i, j | 0 <= i < j < |tail|
          ensures tail[i] != tail[j]
        {
          assert tail[i] == s[i + 1] && tail[j] == s[j + 1];
        }
      }
      RemoveFirstDistinct(tail, x);
      var rest := RemoveFirst(tail, x);
      assert s[0] !in tail by {
        forall k | 0 <= k < |tail|
          ensures tail[k] != s[0]
        {
          assert tail[k] == s[k + 1];
        }
      }
      assert s[0] !in rest;
      var r := [s[0]] + rest;
      forall i, j | 0 <= i < j < |r|
        ensures r[i] != r[j]
      {
        if i == 0 {
          assert r[j] == rest[j - 1];
        } else {
          assert r[i] == rest[i - 1] && r[j] == rest[j - 1];
        }
      }
    }
  }

  lemma {:induction false} RemoveFirstLast(s: seq<nat>, x: nat)
    requires x !in s
    ensures RemoveFirst(s + [x], x) == s
  {
    if s != [] {
      assert (s + [x])[1..] == s[1..] + [x];
      RemoveFirstLast(s[1..], x);
    }
  }

  /** `_subscribe_sse`: the new queue joins the end of the project's list. */
  function Subscribed(subs: map<nat, seq<nat>>, projectId: nat, q: nat): map<nat, seq<nat>> {
    subs[projectId := SubscribersOf(subs, projectId) + [q]]
  }

  /** `_unsubscribe_sse`: the queue leaves the list, and an emptied list its key; an unknown queue changes nothing. */
  function Unsubscribed(subs: map<nat, seq<nat>>, projectId: nat, q: nat): map<nat, seq<nat>> {
    if projectId in subs && q in subs[projectId] then
      var rest := RemoveFirst(subs[projectId], q);
      if rest == [] then subs - {projectId} else subs[projectId := rest]
    else subs
  }

  /** Unsubscribing a fresh queue undoes subscribing it. */
  lemma UnsubscribeUndoesSubscribe(subs: map<nat, seq<nat>>, projectId: nat, q: nat)
    requires forall p :: p in subs ==> subs[p] != [] && q !in subs[p]
    ensures Unsubscribed(Subscribed(subs, projectId, q), projectId, q) == subs
  {
    RemoveFirstLast(SubscribersOf(subs, projectId), q);
    if projectId !in subs {
      assert Subscribed(subs, projectId, q) - {projectId} == subs;
    }
  }

  // ---------------------------------------------------------------------
  // Status counts
  // ---------------------------------------------------------------------

  datatype PageCounts = PageCounts(total: nat, unprocessed: nat, pass1Complete: nat, pass2Complete: nat)

  datatype DisciplineCounts = DisciplineCounts(total: nat, waiting: nat, ready: nat, processing: nat, complete: nat)

  /** The pages the status counts: on a PDF file and pointed at. */
  function CountedPages(pages: seq<Page>, files: seq<ProjectFile>, pointers: seq<PointerLoc>): (r: seq<Page>)
    ensures forall p :: p in r <==> p in pages && OnPdf(p, files) && HasPointers(p, pointers)
  {
    if pages == [] then []
    else
      (if OnPdf(pages[0], files) && HasPointers(pages[0], pointers) then [pages[0]] else [])
      + CountedPages(pages[1..], files, pointers)
  }

  function CountStatus(ps: seq<Page>, statuses: set<PageStatus>): (n: nat)
    ensures n <= |ps|
  {
    if ps == [] then 0
    else (if ps[0].status in statuses then 1 else 0) + CountStatus(ps[1..], statuses)
  }

  /** Counts over disjoint status sets add up. */
  lemma {:induction false} CountStatusUnion(ps: seq<Page>, a: set<PageStatus>, b: set<PageStatus>)
    requires a !! b
    ensures CountStatus(ps, a) + CountStatus(ps, b) == CountStatus(ps, a + b)
  {
    if ps != [] {
      CountStatusUnion(ps[1..], a, b);
    }
  }

  /** Only a list whose every page has one of the statuses counts in full. */
  lemma {:induction false} CountStatusAll(ps: seq<Page>, statuses: set<PageStatus>)
    ensures CountStatus(ps, statuses) == |ps| <==> forall p :: p in ps ==> p.status in statuses
  {
    if ps != [] {
      CountStatusAll(ps[1..], statuses);
      assert ps == [ps[0]] + ps[1..];
    }
  }

  /** `_count_page_statuses`; the "unprocessed" bucket holds failed pages too. */
  function CountPageStatuses(pages: seq<Page>, files: seq<ProjectFile>, pointers: seq<PointerLoc>): (c: PageCounts)
    ensures c.total == |CountedPages(pages, files, pointers)|
    ensures c.unprocessed + c.pass1Complete + c.pass2Complete <= c.total
  {
    if forall f :: f in files ==> !IsPdf(f) then
      NoCountedPages(pages, files, pointers);
      PageCounts(0, 0, 0, 0)
    else if PdfLocs(files, pointers) == [] then
      NoCountedPages(pages, files, pointers);
      PageCounts(0, 0, 0, 0)
    else
      var ps := CountedPages(pages, files, pointers);
      CountStatusUnion(ps, {Unprocessed, Error}, {Pass1Complete});
      assert {Unprocessed, Error} + {Pass1Complete} == {Unprocessed, Error, Pass1Complete};
      CountStatusUnion(ps, {Unprocessed, Error, Pass1Complete}, {Pass2Complete});
      PageCounts(|ps|, CountStatus(ps, {Unprocessed, Error}), CountStatus(ps, {Pass1Complete}), CountStatus(ps, {Pass2Complete}))
  }

  /** With no PDF file, or no pointer on one, no page is counted. */
  lemma NoCountedPages(pages: seq<Page>, files: seq<ProjectFile>, pointers: seq<PointerLoc>)
    requires (forall f :: f in files ==> !IsPdf(f)) || PdfLocs(files, pointers) == []
    ensures CountedPages(pages, files, pointers) == []
  {
  }

  function CountDisciplines(ds: seq<Discipline>, status: DisciplineStatus): (n: nat)
    ensures n <= |ds|
  {
    if ds == [] then 0
    else (if ds[0].status == status then 1 else 0) + CountDisciplines(ds[1..], status)
  }

  lemma {:induction false} CountDisciplinesAll(ds: seq<Discipline>, status: DisciplineStatus)
    ensures CountDisciplines(ds, status) == |ds| <==> forall d :: d in ds ==> d.status == status
  {
    if ds != [] {
      CountDisciplinesAll(ds[1..], status);
      assert ds == [ds[0]] + ds[1..];
    }
  }

  /** `_count_discipline_statuses`; failed disciplines count only in the total. */
  function CountDisciplineStatuses(ds: seq<Discipline>): (c: DisciplineCounts)
    ensures c.total == |ds|
  {
    DisciplineCounts(|ds|, CountDisciplines(ds, Waiting), CountDisciplines(ds, Ready),
                     CountDisciplines(ds, Processing), CountDisciplines(ds, Complete))
  }

  /** The processing-status response. */
  datatype StatusResponse = StatusResponse(
    pages: PageCounts, pagesStatus: RunStatus,
    disciplines: DisciplineCounts, disciplinesStatus: RunStatus)

  // ---------------------------------------------------------------------
  // Resetting and default rows
  // ---------------------------------------------------------------------

  /** A page back to unprocessed with every derived field cleared; title and sheet number stay. */
  function ResetPage(p: Page): Page {
    p.(status := Unprocessed, disciplineCode := "", disciplineId := None, contextDescription := "",
       updatedContext := "", identifiers := [], crossRefs := [], pass1 := None, inbound := [],
       pass2 := None, error := None, retryCount := 0)
  }

  function ResetDiscipline(d: Discipline): Discipline {
    d.(status := Waiting, context := "", keyContents := [], connections := [])
  }

  /** The bulk update over the pages of the project's PDF files. */
  function ResetPages(pages: seq<Page>, files: seq<ProjectFile>): (r: seq<Page>)
    ensures |r| == |pages|
    ensures forall i :: 0 <= i < |pages| ==> r[i] == if OnPdf(pages[i], files) then ResetPage(pages[i]) else pages[i]
  {
    seq(|pages|, i requires 0 <= i < |pages| => if OnPdf(pages[i], files) then ResetPage(pages[i]) else pages[i])
  }

  function ResetDisciplines(ds: seq<Discipline>): (r: seq<Discipline>)
    ensures |r| == |ds|
    ensures forall i :: 0 <= i < |ds| ==> r[i] == ResetDiscipline(ds[i])
  {
    seq(|ds|, i requires 0 <= i < |ds| => ResetDiscipline(ds[i]))
  }

  /**
   * After a reset, pass 1 selects exactly the pointed-at pages on PDF
   * files, each with its full retry budget.
   */
  lemma ResetSelectsAll(pages: seq<Page>, files: seq<ProjectFile>, pointers: seq<PointerLoc>)
    ensures var r := ResetPages(pages, files);
      (forall p :: p in PagesForProcessing(r, files, pointers) <==> (p in r && OnPdf(p, files) && HasPointers(p, pointers)))
      && (forall p :: p in r && OnPdf(p, files) ==> p.retryCount == 0)
  {
    var r := ResetPages(pages, files);
    forall p | p in r && OnPdf(p, files)
      ensures p.status == Unprocessed && p.retryCount == 0
    {
      var i :| 0 <= i < |r| && r[i] == p;
      assert OnPdf(pages[i], files);
    }
  }

  /** `_create_default_disciplines`: one waiting row per standard code, in table order. */
  function DefaultDisciplines(): (ds: seq<Discipline>)
    ensures |ds| == |SheetRefs.DisciplineCodes|
    ensures forall k :: 0 <= k < |ds| ==> ds[k].code == SheetRefs.DisciplineCodes[k] && ds[k].status == Waiting
  {
    var codes := SheetRefs.DisciplineCodes;
    seq(|codes|, k requires 0 <= k < |codes| =>
      Discipline(k + 1, codes[k], SheetRefs.DisciplineName(codes[k]), Waiting, "", [], []))
  }

  lemma {:induction false} EnsureDisciplinesPresent(ds: seq<Discipline>, codes: seq<string>)
    requires forall c :: c in codes ==> IndexOfDiscipline(ds, c).Some?
    ensures EnsureDisciplines(ds, codes) == ds
    decreases |codes|
  {
    if codes != [] {
      EnsureDisciplinesPresent(ds, codes[..|codes| - 1]);
    }
  }

  /**
   * The default rows carry each standard code with its name, and once they
   * exist pass 1 never has to create another: every code it can store
   * already has a row.
   */
  lemma DefaultDisciplinesComplete(codes: seq<string>)
    requires forall c :: c in codes ==> c in SheetRefs.DisciplineNames
    ensures forall d :: d in DefaultDisciplines() ==> d.name == SheetRefs.DisciplineNames[d.code]
    ensures EnsureDisciplines(DefaultDisciplines(), codes) == DefaultDisciplines()
  {
    var ds := DefaultDisciplines();
    forall c | c in codes
      ensures IndexOfDiscipline(ds, c).Some?
    {
      assert c in SheetRefs.DisciplineCodes;
      var k :| 0 <= k < |SheetRefs.DisciplineCodes| && SheetRefs.DisciplineCodes[k] == c;
      assert ds[k].code == c;
    }
    EnsureDisciplinesPresent(ds, codes);
  }

  /** `ORDER BY code` */
  predicate CodeLe(a: Discipline, b: Discipline) {
    LexLe(a.code, b.code)
  }

  lemma CodeLeTotal()
    ensures Sorting.Total(CodeLe)
  {
    forall a: Discipline, b: Discipline
      ensures CodeLe(a, b) || CodeLe(b, a)
    {
      LexLeTotal(a.code, b.code);
    }
  }

  /** The project's disciplines ordered by code. */
  function ByCode(ds: seq<Discipline>): (r: seq<Discipline>)
    ensures multiset(r) == multiset(ds)
    ensures Sorting.SortedBy(r, CodeLe)
  {
    CodeLeTotal();
    Sorting.SortBy(ds, CodeLe)
  }

  // ---------------------------------------------------------------------
  // The router's state
  // ---------------------------------------------------------------------

  class Registry {
    /** `_active_jobs`, by project id. */
    var jobs: map<nat, Job>
    /** `_sse_subscribers`, by project id: the ids of the subscribed queues. */
    var subscribers: map<nat, seq<nat>>
    /** The pending messages of every queue ever handed out. */
    var queues: map<nat, seq<Message>>
    var nextJobId: nat
    var nextQueueId: nat

    /**
     * Job and queue ids are below their counters, no project keeps an empty
     * subscriber list or lists a queue twice, every listed queue exists, and
     * no queue is over capacity.
     */
    ghost predicate Valid()
      reads this
    {
      (forall p :: p in jobs ==> jobs[p].jobId < nextJobId)
      && (forall p :: p in subscribers ==>
            subscribers[p] != [] && Distinct(subscribers[p]) && forall q :: q in subscribers[p] ==> q in queues)
      && (forall q :: q in queues ==> q < nextQueueId)
      && Bounded(queues)
    }

    constructor ()
      ensures Valid()
      ensures jobs == map[] && subscribers == map[] && queues == map[]
    {
      jobs, subscribers, queues := map[], map[], map[];
      nextJobId, nextQueueId := 0, 0;
    }

    /** `_get_active_job`: the project's job, only when it has the type asked for. */
    function ActiveJob(projectId: nat, t: JobType): (r: Option<Job>)
      reads this
      ensures r.Some? <==> projectId in jobs && jobs[projectId].jobType == t
      ensures r.Some? ==> r.value == jobs[projectId]
    {
      if projectId in jobs && jobs[projectId].jobType == t then Some(jobs[projectId]) else None
    }

    /** `_create_job`: a fresh id, replacing whatever job the project had. */
    method CreateJob(projectId: nat, t: JobType) returns (jobId: nat)
      requires Valid()
      modifies this
      ensures Valid()
      ensures jobs == old(jobs)[projectId := Job(jobId, t)]
      ensures forall p :: p in old(jobs) ==> old(jobs)[p].jobId != jobId
      ensures subscribers == old(subscribers) && queues == old(queues)
    {
      jobId := nextJobId;
      nextJobId := nextJobId + 1;
      jobs := jobs[projectId := Job(jobId, t)];
    }

    /** `_clear_job`: whatever job the project has. */
    method ClearJob(projectId: nat)
      requires Valid()
      modifies this
      ensures Valid()
      ensures jobs == old(jobs) - {projectId}
      ensures subscribers == old(subscribers) && queues == old(queues)
    {
      jobs := jobs - {projectId};
    }

    /** `_broadcast_event` */
    method Broadcast(projectId: nat, m: Message)
      requires Valid()
      modifies this
      ensures Valid()
      ensures queues == Offer(old(queues), SubscribersOf(subscribers, projectId), m)
      ensures jobs == old(jobs) && subscribers == old(subscribers)
    {
      var ids := SubscribersOf(subscribers, projectId);
      assert Distinct(ids) && forall q :: q in ids ==> q in queues;
      var qs := queues;
      var i := 0;
      while i < |ids|
        invariant 0 <= i <= |ids|
        invariant unchanged(this)
        invariant qs == Offer(queues, ids[..i], m)
      {
        OfferStep(queues, ids, i, m);
        var q := ids[i];
        if |qs[q]| < QueueCapacity {
          qs := qs[q := qs[q] + [m]];
        }
        i := i + 1;
      }
      assert ids[..i] == ids;
      OfferBounded(queues, ids, m);
      queues := qs;
    }

    /** Broadcasts of several messages in turn. */
    method BroadcastAll(projectId: nat, ms: seq<Message>)
      requires Valid()
      modifies this
      ensures Valid()
      ensures queues == OfferAll(old(queues), SubscribersOf(subscribers, projectId), ms)
      ensures jobs == old(jobs) && subscribers == old(subscribers)
    {
      var i := 0;
      while i < |ms|
        invariant 0 <= i <= |ms| && Valid()
        invariant queues == OfferAll(old(queues), SubscribersOf(subscribers, projectId), ms[..i])
        invariant jobs == old(jobs) && subscribers == old(subscribers)
      {
        Broadcast(projectId, ms[i]);
        assert ms[..i + 1][..i] == ms[..i];
        i := i + 1;
      }
      assert ms[..i] == ms;
    }

    /** `_subscribe_sse`: a fresh, empty queue at the end of the project's list. */
    method Subscribe(projectId: nat) returns (q: nat)
      requires Valid()
      modifies this
      ensures Valid()
      ensures q !in old(queues) && queues == old(queues)[q := []]
      ensures subscribers == Subscribed(old(subscribers), projectId, q)
      ensures jobs == old(jobs)
    {
      q := nextQueueId;
      nextQueueId := nextQueueId + 1;
      queues := queues[q := []];
      subscribers := Subscribed(subscribers, projectId, q);
    }

    /** `_unsubscribe_sse`; the queue itself lives on with its pending messages. */
    method Unsubscribe(projectId: nat, q: nat)
      requires Valid()
      modifies this
      ensures Valid()
      ensures subscribers == Unsubscribed(old(subscribers), projectId, q)
      ensures jobs == old(jobs) && queues == old(queues)
    {
      if projectId in subscribers && q in subscribers[projectId] {
        RemoveFirstDistinct(subscribers[projectId], q);
        var rest := RemoveFirst(subscribers[projectId], q);
        if rest == [] {
          subscribers := subscribers - {projectId};
        } else {
          subscribers := subscribers[projectId := rest];
        }
      }
    }

    /** `trigger_page_processing` and `trigger_discipline_processing`, which differ only in the job type. */
    method Trigger(projectId: nat, projectExists: bool, t: JobType) returns (r: Result<TriggerResponse, HttpError>)
      requires Valid()
      modifies this
      ensures Valid()
      ensures subscribers == old(subscribers) && queues == old(queues)
      ensures !projectExists ==> r == Failure(ProjectNotFound) && jobs == old(jobs)
      ensures projectExists && projectId in old(jobs) && old(jobs)[projectId].jobType == t ==>
        r == Success(TriggerResponse(old(jobs)[projectId].jobId, AlreadyRunning)) && jobs == old(jobs)
      ensures projectExists && !(projectId in old(jobs) && old(jobs)[projectId].jobType == t) ==>
        (r.Success? && r.value.status == Started
         && jobs == old(jobs)[projectId := Job(r.value.jobId, t)]
         && forall p :: p in old(jobs) ==> old(jobs)[p].jobId != r.value.jobId)
    {
      if !projectExists {
        return Failure(ProjectNotFound);
      }
      var existing := ActiveJob(projectId, t);
      if existing.Some? {
        return Success(TriggerResponse(existing.value.jobId, AlreadyRunning));
      }
      var jobId := CreateJob(projectId, t);
      r := Success(TriggerResponse(jobId, Started));
    }

    /**
     * `_run_page_processing`: fresh processors run page processing, every
     * progress event goes to the project's subscribers tagged with the job,
     * then the completion, and the project's job is cleared. The discipline
     * queue is left as page processing leaves it: nothing drains it.
     */
    method RunPageProcessing(db: ContextTreeProcessor.Pipeline, jobId: nat)
      requires Valid()
      modifies this, db
      ensures Valid()
      ensures var run := StartSpec(db.env, old(db.Snapshot()).(ready := [], events := []));
        db.Snapshot() == run.0
        && queues == OfferAll(old(queues), SubscribersOf(subscribers, db.env.projectId),
                              Tagged(db.events, jobId) + [PagesFinished(jobId, run.1)])
      ensures forall p :: p in db.pages ==> !Retryable(p, db.env.files)
      ensures jobs == old(jobs) - {db.env.projectId} && subscribers == old(subscribers)
    {
      db.ready, db.events := [], [];
      ghost var s0 := db.Snapshot();
      assert s0 == old(db.Snapshot()).(ready := [], events := []);
      var summary := db.StartProcessing();
      Announce(db.env.projectId, Tagged(db.events, jobId), PagesFinished(jobId, summary));
      ClearJob(db.env.projectId);
    }

    /** `_run_discipline_processing`: pass 3 of every ready discipline by a fresh processor, announced the same way. */
    method RunDisciplineProcessing(db: ContextTreeProcessor.Pipeline, jobId: nat)
      requires Valid()
      modifies this, db
      ensures Valid()
      ensures var run := ProcessAllReadySpec(db.env, old(db.Snapshot()).(ready := [], events := []));
        db.Snapshot() == run.0
        && queues == OfferAll(old(queues), SubscribersOf(subscribers, db.env.projectId),
                              Tagged(db.events, jobId) + [DisciplinesFinished(jobId, run.1)])
      ensures jobs == old(jobs) - {db.env.projectId} && subscribers == old(subscribers)
    {
      db.ready, db.events := [], [];
      ghost var s0 := db.Snapshot();
      assert s0 == old(db.Snapshot()).(ready := [], events := []);
      var t := db.ProcessAllReady();
      Announce(db.env.projectId, Tagged(db.events, jobId), DisciplinesFinished(jobId, t));
      ClearJob(db.env.projectId);
    }

    /** The progress messages of a job, then its completion. */
    method Announce(projectId: nat, progress: seq<Message>, last: Message)
      requires Valid()
      modifies this
      ensures Valid()
      ensures queues == OfferAll(old(queues), SubscribersOf(subscribers, projectId), progress + [last])
      ensures jobs == old(jobs) && subscribers == old(subscribers)
    {
      BroadcastAll(projectId, progress);
      Broadcast(projectId, last);
      assert (progress + [last])[..|progress|] == progress;
    }

    /** `_determine_pages_status` */
    function PagesStatus(counts: PageCounts, projectId: nat): (r: RunStatus)
      reads this
      ensures r == StatusProcessing <==> ActiveJob(projectId, PagesJob).Some?
      ensures r == StatusComplete <==> ActiveJob(projectId, PagesJob).None? && counts.total > 0 && counts.pass2Complete == counts.total
    {
      if ActiveJob(projectId, PagesJob).Some? then StatusProcessing
      else if counts.total == 0 then StatusIdle
      else if counts.pass2Complete == counts.total then StatusComplete
      else StatusIdle
    }

    /** `_determine_disciplines_status` */
    function DisciplinesStatus(counts: DisciplineCounts, projectId: nat): (r: RunStatus)
      reads this
      ensures r == StatusComplete <==> ActiveJob(projectId, DisciplinesJob).None? && counts.total > 0 && counts.complete == counts.total
      ensures r == StatusProcessing <==> ActiveJob(projectId, DisciplinesJob).Some? || (counts.total > 0 && counts.complete != counts.total && counts.processing > 0)
    {
      if ActiveJob(projectId, DisciplinesJob).Some? then StatusProcessing
      else if counts.total == 0 then StatusIdle
      else if counts.complete == counts.total then StatusComplete
      else if counts.processing > 0 then StatusProcessing
      else StatusIdle
    }

    /** `get_processing_status` */
    function ProcessingStatus(db: ContextTreeProcessor.Pipeline, projectExists: bool): (r: Result<StatusResponse, HttpError>)
      reads this, db
      ensures !projectExists <==> r == Failure(ProjectNotFound)
      ensures r.Success? ==> (r.value.pages.total == |CountedPages(db.pages, db.env.files, db.env.pointers)|
        && r.value.disciplines.total == |db.disciplines|)
    {
      if !projectExists then Failure(ProjectNotFound)
      else
        var pc := CountPageStatuses(db.pages, db.env.files, db.env.pointers);
        var dc := CountDisciplineStatuses(db.disciplines);
        Success(StatusResponse(pc, PagesStatus(pc, db.env.projectId), dc, DisciplinesStatus(dc, db.env.projectId)))
    }

    /** `reset_page_processing`: refused with 409 while any job of the project is registered. */
    method ResetPageProcessing(db: ContextTreeProcessor.Pipeline, projectExists: bool) returns (r: Result<(nat, nat), HttpError>)
      modifies db
      ensures !projectExists ==> r == Failure(ProjectNotFound)
      ensures projectExists && db.env.projectId in jobs ==> r == Failure(ResetConflict)
      ensures r.Failure? || (forall f :: f in db.env.files ==> !IsPdf(f)) ==> db.Snapshot() == old(db.Snapshot())
      ensures projectExists && db.env.projectId !in jobs ==> r.Success?
      ensures r.Success? && (forall f :: f in db.env.files ==> !IsPdf(f)) ==> r.value == (0, 0)
      ensures r.Success? && (exists f :: f in db.env.files && IsPdf(f)) ==>
        (db.Snapshot() == old(db.Snapshot()).(pages := ResetPages(old(db.pages), db.env.files),
                                               disciplines := ResetDisciplines(old(db.disciplines)))
         && r.value == (TotalPageCount(old(db.pages), db.env.files), |old(db.disciplines)|))
    {
      if !projectExists {
        return Failure(ProjectNotFound);
      }
      if db.env.projectId in jobs {
        return Failure(ResetConflict);
      }
      if forall f :: f in db.env.files ==> !IsPdf(f) {
        return Success((0, 0));
      }
      var pagesReset := TotalPageCount(db.pages, db.env.files);
      var disciplinesReset := |db.disciplines|;
      db.pages := ResetPages(db.pages, db.env.files);
      db.disciplines := ResetDisciplines(db.disciplines);
      r := Success((pagesReset, disciplinesReset));
    }

    /** `list_discipline_contexts`: ordered by code, except that freshly created defaults come in table order. */
    method ListDisciplineContexts(db: ContextTreeProcessor.Pipeline, projectExists: bool, ensureExist: bool)
      returns (r: Result<seq<Discipline>, HttpError>)
      modifies db
      ensures !projectExists ==> r == Failure(ProjectNotFound) && db.Snapshot() == old(db.Snapshot())
      ensures projectExists && old(db.disciplines) == [] && ensureExist ==>
        r == Success(DefaultDisciplines()) && db.Snapshot() == old(db.Snapshot()).(disciplines := DefaultDisciplines())
      ensures projectExists && !(old(db.disciplines) == [] && ensureExist) ==>
        r == Success(ByCode(old(db.disciplines))) && db.Snapshot() == old(db.Snapshot())
    {
      if !projectExists {
        return Failure(ProjectNotFound);
      }
      var ds := ByCode(db.disciplines);
      if ds == [] && ensureExist {
        db.disciplines := DefaultDisciplines();
        return Success(db.disciplines);
      }
      r := Success(ds);
    }
  }

  /** Progress events tagged with their job. */
  function Tagged(events: seq<Event>, jobId: nat): (r: seq<Message>)
    ensures |r| == |events|
    ensures forall i :: 0 <= i < |events| ==> r[i] == Progress(events[i], jobId)
  {
    seq(|events|, i requires 0 <= i < |events| => Progress(events[i], jobId))
  }

  /** A pages status of "complete" means every counted page finished pass 2. */
  lemma CompleteMeansPass2Done(r: Registry, pages: seq<Page>, files: seq<ProjectFile>, pointers: seq<PointerLoc>, projectId: nat)
    requires r.PagesStatus(CountPageStatuses(pages, files, pointers), projectId) == StatusComplete
    ensures forall p :: p in pages && OnPdf(p, files) && HasPointers(p, pointers) ==> p.status == Pass2Complete
  {
    var ps := CountedPages(pages, files, pointers);
    CountStatusAll(ps, {Pass2Complete});
    assert CountPageStatuses(pages, files, pointers).pass2Complete == CountStatus(ps, {Pass2Complete}) by {
      if forall f :: f in files ==> !IsPdf(f) {
      } else if PdfLocs(files, pointers) == [] {
      }
    }
  }

  /** A disciplines status of "complete" means every discipline of the project is complete. */
  lemma CompleteMeansAllDisciplinesDone(r: Registry, ds: seq<Discipline>, projectId: nat)
    requires r.DisciplinesStatus(CountDisciplineStatuses(ds), projectId) == StatusComplete
    ensures ds != [] && forall d :: d in ds ==> d.status == Complete
  {
    CountDisciplinesAll(ds, Complete);
  }
}
