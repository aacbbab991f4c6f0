/**
 * The page and discipline life cycle of the context-tree pipeline, as
 * functions from one database state to the next. The pipeline class in
 * `pipeline.dfy` performs these steps in place and is proved against them.
 *
 * The language model is an oracle: the parsed reply, or the message of the
 * exception, of the n-th model call of the run. Building the pass-1 prompt is
 * a step of its own that may raise before any call is made.
 */
module Lifecycle {
  import opened Wrappers
  import opened Text
  import opened ContextData
  import SheetRefs
  import Inbound

  /** Replies of the model, indexed by the number of calls made before. */
  datatype Oracle = Oracle(
    promptBuilds: bool,
    pass1: nat -> Result<Pass1Reply, string>,
    pass2: nat -> Result<Pass2Reply, string>,
    pass3: nat -> Result<Pass3Reply, string>)

  /** What a run does not change: the project, its files, its pointers and the model. */
  datatype Env = Env(projectId: nat, files: seq<ProjectFile>, pointers: seq<PointerLoc>, oracle: Oracle)

  /** A `(discipline_code, project_id)` pair of the pass-3 queue. */
  datatype QueueEntry = QueueEntry(code: string, projectId: nat)

  datatype FailedPage = FailedPage(pageId: nat, sheetNumber: string)

  datatype Summary = Summary(
    pass1Completed: nat,
    pass1Errors: nat,
    pass2Completed: nat,
    pass2Errors: nat,
    permanentlyFailed: seq<FailedPage>)

  /** The progress events the processors emit. */
  datatype Event =
    | ProcessingStarted(pass1Total: nat)
    | PagePass1Complete(pageId: nat, sheetNumber: string, discipline: Option<string>, progress: nat, total: nat)
    | PageError(pageId: nat, pass: nat, error: string)
    | Pass1Finished(completed: nat, errors: nat, disciplines: seq<string>)
    | PagePass2Complete(pageId: nat, sheetNumber: string, progress: nat, total: nat)
    | Pass2Finished(completed: nat, errors: nat)
    | OrphansDetected(orphans: seq<FailedPage>)
    | ProcessingComplete(summary: Summary)
    | DisciplineReady(code: string, name: string)
    | DisciplineComplete(code: string, name: string, pageCount: nat, keyContentsCount: nat)

  /** The database rows, the pass-3 queue, the events so far and the number of model calls made. */
  datatype State = State(
    pages: seq<Page>,
    disciplines: seq<Discipline>,
    ready: seq<QueueEntry>,
    events: seq<Event>,
    calls: nat)

  /** `str(e)` for the `NameError` raised while building the pass-1 prompt. */
  const PromptError: string := "name 'spans_section' is not defined"

  /** `_sweep_and_retry_orphans`' `max_retries`. */
  const MaxPageRetries: nat := 3

  // ---------------------------------------------------------------------
  // Pass 1 of one page
  // ---------------------------------------------------------------------

  /** The discipline code kept from a reply: a known code, else "G". */
  function ValidDiscipline(d: Option<string>): (code: string)
    ensures code in SheetRefs.DisciplineNames
    ensures d.Some? && d.value in SheetRefs.DisciplineNames ==> code == d.value
    ensures !(d.Some? && d.value in SheetRefs.DisciplineNames) ==> code == SheetRefs.GeneralCode
  {
    if d.Some? && d.value in SheetRefs.DisciplineNames then d.value else SheetRefs.GeneralCode
  }

  function RefIdentifiers(ptr: PointerAnalysis, refs: seq<OutboundRef>): seq<Identifier>
    decreases |refs|
  {
    if refs == [] then []
    else
      var ref := refs[|refs| - 1];
      RefIdentifiers(ptr, refs[..|refs| - 1]) + [Identifier(ref.ref, ref.refType.GetOr("detail"), ptr.summary)]
  }

  /** The legacy `identifiers`: every outbound reference, with its pointer's summary as content. */
  function LegacyIdentifiers(ptrs: seq<PointerAnalysis>): seq<Identifier>
    decreases |ptrs|
  {
    if ptrs == [] then []
    else
      var ptr := ptrs[|ptrs| - 1];
      LegacyIdentifiers(ptrs[..|ptrs| - 1]) + RefIdentifiers(ptr, ptr.outboundRefs)
  }

  /** The sheet number after pass 1: the reply's, else a case-sensitive match on the file name, else the old one. */
  function Pass1Sheet(p: Page, reply: Pass1Reply, files: seq<ProjectFile>): string {
    if reply.sheetNumber != "" then reply.sheetNumber
    else match FileOf(files, p.fileId)
      case None => p.sheet
      case Some(f) =>
        match SheetRefs.SheetPrefix(f.name, false)
        case Some(m) => m
        case None => p.sheet
  }

  function CompletePass1(p: Page, reply: Pass1Reply, files: seq<ProjectFile>): Page {
    p.(disciplineCode := ValidDiscipline(reply.discipline),
       contextDescription := reply.summary,
       identifiers := LegacyIdentifiers(reply.pointers),
       pass1 := Some(reply),
       sheet := Pass1Sheet(p, reply, files),
       status := Pass1Complete,
       error := None)
  }

  function FailPage(p: Page, message: string): Page {
    p.(status := Error, error := Some(message))
  }

  datatype Pass1Result = Pass1Missing | Pass1Done(discipline: string) | Pass1Raised(message: string)

  /** `process_pass1` of the page with id `id`. */
  function Pass1Step(env: Env, s: State, id: nat): (State, Pass1Result) {
    match IndexOfPage(s.pages, id)
    case None => (s, Pass1Missing)
    case Some(i) =>
      var p := s.pages[i];
      if !env.oracle.promptBuilds then
        (s.(pages := s.pages[i := FailPage(p, PromptError)]), Pass1Raised(PromptError))
      else
        match env.oracle.pass1(s.calls)
        case Failure(m) =>
          (s.(pages := s.pages[i := FailPage(p, m)], calls := s.calls + 1), Pass1Raised(m))
        case Success(reply) =>
          (s.(pages := s.pages[i := CompletePass1(p, reply, env.files)], calls := s.calls + 1),
           Pass1Done(ValidDiscipline(reply.discipline)))
  }

  /**
   * Pass 1 either completes the page, with a known discipline code and no
   * error, or marks it failed with the exception's message; nothing else in
   * the database changes.
   */
  lemma Pass1Outcome(env: Env, s: State, id: nat)
    requires IndexOfPage(s.pages, id).Some?
    ensures var (s', r) := Pass1Step(env, s, id);
      var i := IndexOfPage(s.pages, id).value;
      |s'.pages| == |s.pages| && s'.disciplines == s.disciplines && s'.events == s.events
      && (forall j :: 0 <= j < |s.pages| && j != i ==> s'.pages[j] == s.pages[j])
      && (r.Pass1Done? ==> (s'.pages[i].status == Pass1Complete && s'.pages[i].error.None?
            && s'.pages[i].disciplineCode == r.discipline && r.discipline in SheetRefs.DisciplineNames))
      && (r.Pass1Raised? ==> s'.pages[i].status == Error && s'.pages[i].error == Some(r.message))
      && !r.Pass1Missing?
  {
  }

  /** As written the prompt never builds, so pass 1 fails every page it finds, without calling the model. */
  lemma Pass1AlwaysFailsAsWritten(env: Env, s: State, id: nat)
    requires !env.oracle.promptBuilds && IndexOfPage(s.pages, id).Some?
    ensures Pass1Step(env, s, id).1 == Pass1Raised(PromptError)
    ensures Pass1Step(env, s, id).0.calls == s.calls
  {
  }

  /** A model failure leaves its own message on the page: the "Pass 1 Gemini error" prefix does not survive. */
  lemma Pass1FailureMessage(env: Env, s: State, id: nat, m: string)
    requires env.oracle.promptBuilds && env.oracle.pass1(s.calls) == Failure(m)
    requires IndexOfPage(s.pages, id).Some?
    ensures Pass1Step(env, s, id).0.pages[IndexOfPage(s.pages, id).value].error == Some(m)
  {
  }

  // ---------------------------------------------------------------------
  // Pass 2 of one page, and the discipline readiness check
  // ---------------------------------------------------------------------

  /** `"Reference to {ref}: {ctx}"` for each reference with both a name and a context. */
  function ContextAdditions(rcs: seq<RefContext>): (r: seq<string>)
    ensures |r| <= |rcs|
    decreases |rcs|
  {
    if rcs == [] then []
    else
      var rc := rcs[|rcs| - 1];
      ContextAdditions(rcs[..|rcs| - 1])
      + (if rc.ref != "" && rc.context != "" then ["Reference to " + rc.ref + ": " + rc.context] else [])
  }

  /** The legacy `updated_context`: the description, then the cross-references when there are any. */
  function UpdatedContext(description: string, rcs: seq<RefContext>): (r: string)
    ensures StartsWith(r, description)
    ensures ContextAdditions(rcs) == [] ==> r == description
  {
    var additions := ContextAdditions(rcs);
    if additions == [] then description
    else description + " Cross-references: " + Join(additions, "; ")
  }

  function CrossRefs(rcs: seq<RefContext>): (r: seq<CrossRef>)
    ensures |r| == |rcs|
    ensures forall k :: 0 <= k < |rcs| ==> r[k] == CrossRef(rcs[k].ref, rcs[k].context)
  {
    seq(|rcs|, k requires 0 <= k < |rcs| => CrossRef(rcs[k].ref, rcs[k].context))
  }

  function CompletePass2(p: Page, reply: Pass2Reply): Page {
    p.(pass2 := Some(reply),
       crossRefs := CrossRefs(reply.refContexts),
       updatedContext := UpdatedContext(p.contextDescription, reply.refContexts),
       status := Pass2Complete,
       error := None)
  }

  /** Pages of the code on the project's PDF files, and how many of them finished pass 2. */
  function CodePages(pages: seq<Page>, files: seq<ProjectFile>, code: string): (n: nat)
    ensures n <= |pages|
  {
    if pages == [] then 0
    else (if OnPdf(pages[0], files) && pages[0].disciplineCode == code then 1 else 0) + CodePages(pages[1..], files, code)
  }

  function CodePagesComplete(pages: seq<Page>, files: seq<ProjectFile>, code: string): (n: nat)
    ensures n <= CodePages(pages, files, code)
  {
    if pages == [] then 0
    else
      (if OnPdf(pages[0], files) && pages[0].disciplineCode == code && pages[0].status == Pass2Complete then 1 else 0)
      + CodePagesComplete(pages[1..], files, code)
  }

  /** The first discipline row with the code. */
  function IndexOfDiscipline(ds: seq<Discipline>, code: string): (r: Option<nat>)
    ensures r.Some? ==> r.value < |ds| && ds[r.value].code == code
    ensures r.None? ==> forall k :: 0 <= k < |ds| ==> ds[k].code != code
  {
    if ds == [] then None
    else if ds[0].code == code then Some(0)
    else match IndexOfDiscipline(ds[1..], code)
      case None => None
      case Some(k) => Some(k + 1)
  }

  /** `on_discipline_ready`: enqueue the pair unless it is already queued. */
  function Enqueue(q: seq<QueueEntry>, e: QueueEntry): (r: seq<QueueEntry>)
    ensures e in r
    ensures e in q ==> r == q
    ensures e !in q ==> r == q + [e]
  {
    if e in q then q else q + [e]
  }

  /** The count test of `check_discipline_ready`: the code has pages, and as many of them finished pass 2. */
  predicate AllCodePagesDone(pages: seq<Page>, files: seq<ProjectFile>, code: string) {
    var total := CodePages(pages, files, code);
    total > 0 && total == CodePagesComplete(pages, files, code)
  }

  /** A page the readiness check counts for the code: on a PDF file of the project and of that discipline. */
  predicate CodePage(p: Page, files: seq<ProjectFile>, code: string) {
    OnPdf(p, files) && p.disciplineCode == code
  }

  /** The count of the code's pages is positive exactly when the code has a page. */
  lemma {:induction false} CodePagesPositive(pages: seq<Page>, files: seq<ProjectFile>, code: string)
    ensures CodePages(pages, files, code) > 0 <==> exists i :: 0 <= i < |pages| && CodePage(pages[i], files, code)
    decreases |pages|
  {
    if pages != [] {
      CodePagesPositive(pages[1..], files, code);
      if exists i :: 0 <= i < |pages[1..]| && CodePage(pages[1..][i], files, code) {
        var i :| 0 <= i < |pages[1..]| && CodePage(pages[1..][i], files, code);
        assert pages[i + 1] == pages[1..][i];
      }
      if exists i :: 0 <= i < |pages| && CodePage(pages[i], files, code) {
        var i :| 0 <= i < |pages| && CodePage(pages[i], files, code);
        if i > 0 {
          assert pages[1..][i - 1] == pages[i];
        }
      }
    }
  }

  /** Both counts agree exactly when every page of the code finished pass 2. */
  lemma {:induction false} CodePagesAllComplete(pages: seq<Page>, files: seq<ProjectFile>, code: string)
    ensures CodePagesComplete(pages, files, code) == CodePages(pages, files, code)
      <==> forall i :: 0 <= i < |pages| && CodePage(pages[i], files, code) ==> pages[i].status == Pass2Complete
    decreases |pages|
  {
    if pages != [] {
      CodePagesAllComplete(pages[1..], files, code);
      if forall i :: 0 <= i < |pages| && CodePage(pages[i], files, code) ==> pages[i].status == Pass2Complete {
        forall i | 0 <= i < |pages[1..]| && CodePage(pages[1..][i], files, code)
          ensures pages[1..][i].status == Pass2Complete
        {
          assert pages[1..][i] == pages[i + 1];
        }
      }
      if CodePagesComplete(pages, files, code) == CodePages(pages, files, code) {
        assert CodePagesComplete(pages[1..], files, code) <= CodePages(pages[1..], files, code);
        forall i | 0 <= i < |pages| && CodePage(pages[i], files, code)
          ensures pages[i].status == Pass2Complete
        {
          if i > 0 {
            assert pages[1..][i - 1] == pages[i];
          }
        }
      }
    }
  }

  /**
   * The readiness condition: the code has at least one page on a PDF file,
   * and every such page finished pass 2.
   */
  lemma AllCodePagesDoneIff(pages: seq<Page>, files: seq<ProjectFile>, code: string)
    ensures AllCodePagesDone(pages, files, code) <==>
      (exists i :: 0 <= i < |pages| && CodePage(pages[i], files, code))
      && forall i :: 0 <= i < |pages| && CodePage(pages[i], files, code) ==> pages[i].status == Pass2Complete
  {
    CodePagesPositive(pages, files, code);
    CodePagesAllComplete(pages, files, code);
  }

  /** `check_discipline_ready` */
  function CheckReady(env: Env, s: State, code: string): (State, bool) {
    if AllCodePagesDone(s.pages, env.files, code) then
      match IndexOfDiscipline(s.disciplines, code)
      case Some(k) =>
        if s.disciplines[k].status == Waiting then
          (s.(disciplines := s.disciplines[k := s.disciplines[k].(status := Ready)],
              events := s.events + [DisciplineReady(code, SheetRefs.DisciplineName(code))],
              ready := Enqueue(s.ready, QueueEntry(code, env.projectId))), true)
        else (s, false)
      case None => (s, false)
    else (s, false)
  }

  /**
   * The check moves a discipline from waiting to ready, announces it and
   * queues it exactly when all of the code's pages finished pass 2 and the
   * discipline is waiting; otherwise it changes nothing.
   */
  lemma CheckReadySpec(env: Env, s: State, code: string)
    ensures var (s', fired) := CheckReady(env, s, code);
      (fired <==> ((exists i :: 0 <= i < |s.pages| && CodePage(s.pages[i], env.files, code))
         && (forall i :: 0 <= i < |s.pages| && CodePage(s.pages[i], env.files, code) ==> s.pages[i].status == Pass2Complete)
         && IndexOfDiscipline(s.disciplines, code).Some?
         && s.disciplines[IndexOfDiscipline(s.disciplines, code).value].status == Waiting))
      && (!fired ==> s' == s)
      && (fired ==> (s'.pages == s.pages
         && s'.disciplines[IndexOfDiscipline(s.disciplines, code).value].status == Ready
         && s'.events == s.events + [DisciplineReady(code, SheetRefs.DisciplineName(code))]
         && QueueEntry(code, env.projectId) in s'.ready))
  {
    AllCodePagesDoneIff(s.pages, env.files, code);
  }

  /** Asking again once the discipline is ready does nothing: the transition happens at most once. */
  lemma CheckReadyOnce(env: Env, s: State, code: string)
    ensures var s1 := CheckReady(env, s, code).0;
      CheckReady(env, s1, code) == (s1, false)
  {
    var (s1, fired) := CheckReady(env, s, code);
    if fired {
      var k := IndexOfDiscipline(s.disciplines, code).value;
      assert s1.disciplines[k].status == Ready;
      assert IndexOfDiscipline(s1.disciplines, code) == Some(k) by {
        assert forall j :: 0 <= j < |s1.disciplines| ==> s1.disciplines[j].code == s.disciplines[j].code;
        IndexOfDisciplineSameCodes(s.disciplines, s1.disciplines, code);
      }
    }
  }

  /** The first row with a code only depends on the codes. */
  lemma {:induction false} IndexOfDisciplineSameCodes(a: seq<Discipline>, b: seq<Discipline>, code: string)
    requires |a| == |b| && forall j :: 0 <= j < |a| ==> a[j].code == b[j].code
    ensures IndexOfDiscipline(a, code) == IndexOfDiscipline(b, code)
    decreases |a|
  {
    if a != [] {
      IndexOfDisciplineSameCodes(a[1..], b[1..], code);
    }
  }

  datatype Pass2Result = Pass2Missing | Pass2Done | Pass2Raised(message: string)

  /** `process_pass2` of the page with id `id`, including the readiness check of its discipline. */
  function Pass2Step(env: Env, s: State, id: nat): (State, Pass2Result) {
    match IndexOfPage(s.pages, id)
    case None => (s, Pass2Missing)
    case Some(i) =>
      var p := s.pages[i];
      match env.oracle.pass2(s.calls)
      case Failure(m) =>
        (s.(pages := s.pages[i := FailPage(p, m)], calls := s.calls + 1), Pass2Raised(m))
      case Success(reply) =>
        var s1 := s.(pages := s.pages[i := CompletePass2(p, reply)], calls := s.calls + 1);
        if p.disciplineCode != "" then (CheckReady(env, s1, p.disciplineCode).0, Pass2Done) else (s1, Pass2Done)
  }

  /** Pass 2 completes the page with the reply's cross-references appended to its description, or fails it. */
  lemma Pass2Outcome(env: Env, s: State, id: nat)
    requires IndexOfPage(s.pages, id).Some?
    ensures var (s', r) := Pass2Step(env, s, id);
      var i := IndexOfPage(s.pages, id).value;
      |s'.pages| == |s.pages| && !r.Pass2Missing?
      && (forall j :: 0 <= j < |s.pages| && j != i ==> s'.pages[j] == s.pages[j])
      && (r.Pass2Done? ==> (s'.pages[i].status == Pass2Complete && s'.pages[i].error.None?
            && StartsWith(s'.pages[i].updatedContext, s.pages[i].contextDescription)))
      && (r.Pass2Raised? ==> s'.pages[i] == FailPage(s.pages[i], r.message))
  {
    var i := IndexOfPage(s.pages, id).value;
    var p := s.pages[i];
    if env.oracle.pass2(s.calls).Success? {
      var s1 := s.(pages := s.pages[i := CompletePass2(p, env.oracle.pass2(s.calls).value)], calls := s.calls + 1);
      if p.disciplineCode != "" {
        CheckReadySpec(env, s1, p.disciplineCode);
      }
    }
  }

  // ---------------------------------------------------------------------
  // Discipline rows
  // ---------------------------------------------------------------------

  function MaxDisciplineId(ds: seq<Discipline>): (m: nat)
    ensures forall k :: 0 <= k < |ds| ==> ds[k].id <= m
  {
    if ds == [] then 0
    else
      var m := MaxDisciplineId(ds[1..]);
      if ds[0].id > m then ds[0].id else m
  }

  function NewDiscipline(ds: seq<Discipline>, code: string): Discipline {
    Discipline(MaxDisciplineId(ds) + 1, code, SheetRefs.DisciplineName(code), Waiting, "", [], [])
  }

  /** Create the row for a code unless the code has one. */
  function EnsureCode(ds: seq<Discipline>, c: string): (r: seq<Discipline>)
    ensures |ds| <= |r| <= |ds| + 1 && r[..|ds|] == ds
    ensures IndexOfDiscipline(r, c).Some?
    ensures |r| > |ds| ==> r[|ds|] == NewDiscipline(ds, c)
  {
    if IndexOfDiscipline(ds, c).Some? then ds
    else
      IndexOfDisciplineAppend(ds, NewDiscipline(ds, c), c);
      ds + [NewDiscipline(ds, c)]
  }

  /** `ensure_discipline_contexts_exist`, creating the missing codes in the order given. */
  function EnsureDisciplines(ds: seq<Discipline>, codes: seq<string>): (r: seq<Discipline>)
    ensures |ds| <= |r| && r[..|ds|] == ds
    ensures forall k :: |ds| <= k < |r| ==> (r[k].status == Waiting && r[k].code in codes
      && r[k].name == SheetRefs.DisciplineName(r[k].code))
    decreases |codes|
  {
    if codes == [] then ds
    else
      var init := codes[..|codes| - 1];
      var r0 := EnsureDisciplines(ds, init);
      assert forall c' :: c' in init ==> c' in codes;
      var r := EnsureCode(r0, codes[|codes| - 1]);
      assert r[..|r0|] == r0;
      r
  }

  /** Every code has a row afterwards. */
  lemma {:induction false} EnsureDisciplinesCovers(ds: seq<Discipline>, codes: seq<string>, c: string)
    requires c in codes
    ensures IndexOfDiscipline(EnsureDisciplines(ds, codes), c).Some?
    decreases |codes|
  {
    var init := codes[..|codes| - 1];
    var last := codes[|codes| - 1];
    assert codes == init + [last];
    var r0 := EnsureDisciplines(ds, init);
    if c != last {
      EnsureDisciplinesCovers(ds, init, c);
      if IndexOfDiscipline(r0, last).None? {
        IndexOfDisciplineAppend(r0, NewDiscipline(r0, last), c);
      }
    }
  }

  lemma {:induction false} IndexOfDisciplineAppend(ds: seq<Discipline>, d: Discipline, code: string)
    ensures IndexOfDiscipline(ds, code).Some? ==> IndexOfDiscipline(ds + [d], code) == IndexOfDiscipline(ds, code)
    ensures d.code == code ==> IndexOfDiscipline(ds + [d], code).Some?
    decreases |ds|
  {
    if ds != [] {
      assert (ds + [d])[1..] == ds[1..] + [d];
      IndexOfDisciplineAppend(ds[1..], d, code);
    }
  }

  // ---------------------------------------------------------------------
  // run_pass1 and run_pass2
  // ---------------------------------------------------------------------

  datatype Tally = Tally(completed: nat, errors: nat)

  function AddTally(a: Tally, b: Tally): Tally {
    Tally(a.completed + b.completed, a.errors + b.errors)
  }

  datatype Pass1Acc = Pass1Acc(s: State, completed: nat, errors: nat, discovered: seq<string>)

  /** Adds a discovered code, as a set would. */
  function AddCode(codes: seq<string>, c: string): (r: seq<string>)
    ensures c in r && forall x :: x in codes ==> x in r
  {
    if c in codes then codes else codes + [c]
  }

  /** One page of `run_pass1`: run pass 1, count it, and announce it. */
  function Pass1Visit(env: Env, acc: Pass1Acc, p: Page, total: nat): (r: Pass1Acc)
    ensures r.completed + r.errors == acc.completed + acc.errors + 1
  {
    var step := Pass1Step(env, acc.s, p.id);
    var s := step.0;
    match step.1
    case Pass1Missing =>
      Pass1Acc(s.(events := s.events + [PagePass1Complete(p.id, p.sheet, None, acc.completed + 1, total)]),
               acc.completed + 1, acc.errors, acc.discovered)
    case Pass1Done(d) =>
      Pass1Acc(s.(events := s.events + [PagePass1Complete(p.id, p.sheet, Some(d), acc.completed + 1, total)]),
               acc.completed + 1, acc.errors, AddCode(acc.discovered, d))
    case Pass1Raised(m) =>
      Pass1Acc(s.(events := s.events + [PageError(p.id, 1, m)]), acc.completed, acc.errors + 1, acc.discovered)
  }

  /** The pages of `run_pass1` in turn. */
  function Pass1Fold(env: Env, acc: Pass1Acc, sel: seq<Page>, total: nat): (r: Pass1Acc)
    ensures r.completed + r.errors == acc.completed + acc.errors + |sel|
    decreases |sel|
  {
    if sel == [] then acc
    else Pass1Visit(env, Pass1Fold(env, acc, sel[..|sel| - 1], total), sel[|sel| - 1], total)
  }

  /** `run_pass1`: pass 1 over the selected pages, then the discipline rows for the codes found. */
  function RunPass1Spec(env: Env, s: State): (State, Tally) {
    var sel := PagesForProcessing(s.pages, env.files, env.pointers);
    if |sel| == 0 then (s, Tally(0, 0))
    else
      var acc := Pass1Fold(env, Pass1Acc(s, 0, 0, []), sel, |sel|);
      var s1 := if acc.discovered != [] then acc.s.(disciplines := EnsureDisciplines(acc.s.disciplines, acc.discovered)) else acc.s;
      (s1.(events := s1.events + [Pass1Finished(acc.completed, acc.errors, acc.discovered)]), Tally(acc.completed, acc.errors))
  }

  /** Every page `run_pass1` selects is counted once, as completed or as an error. */
  lemma RunPass1Counts(env: Env, s: State)
    ensures var t := RunPass1Spec(env, s).1;
      t.completed + t.errors == |PagesForProcessing(s.pages, env.files, env.pointers)|
  {
  }

  datatype Pass2Acc = Pass2Acc(s: State, completed: nat, errors: nat)

  /** One page of `run_pass2`; a page that is not found counts as completed. */
  function Pass2Visit(env: Env, acc: Pass2Acc, p: Page, total: nat): (r: Pass2Acc)
    ensures r.completed + r.errors == acc.completed + acc.errors + 1
  {
    var step := Pass2Step(env, acc.s, p.id);
    var s := step.0;
    match step.1
    case Pass2Raised(m) =>
      Pass2Acc(s.(events := s.events + [PageError(p.id, 2, m)]), acc.completed, acc.errors + 1)
    case _ =>
      Pass2Acc(s.(events := s.events + [PagePass2Complete(p.id, p.sheet, acc.completed + 1, total)]), acc.completed + 1, acc.errors)
  }

  function Pass2Fold(env: Env, acc: Pass2Acc, sel: seq<Page>, total: nat): (r: Pass2Acc)
    ensures r.completed + r.errors == acc.completed + acc.errors + |sel|
    decreases |sel|
  {
    if sel == [] then acc
    else Pass2Visit(env, Pass2Fold(env, acc, sel[..|sel| - 1], total), sel[|sel| - 1], total)
  }

  /** `run_pass2`: pass 2 over the selected pages in order; progress is reported against all the project's pages. */
  function RunPass2Spec(env: Env, s: State): (State, Tally) {
    var sel := PagesForPass2(s.pages, env.files, env.pointers);
    if |sel| == 0 then (s, Tally(0, 0))
    else
      var acc := Pass2Fold(env, Pass2Acc(s, 0, 0), sel, TotalPageCount(s.pages, env.files));
      (acc.s.(events := acc.s.events + [Pass2Finished(acc.completed, acc.errors)]), Tally(acc.completed, acc.errors))
  }

  lemma RunPass2Counts(env: Env, s: State)
    ensures var t := RunPass2Spec(env, s).1;
      t.completed + t.errors == |PagesForPass2(s.pages, env.files, env.pointers)|
  {
  }

  // ---------------------------------------------------------------------
  // The orphan sweep and the retry budget
  // ---------------------------------------------------------------------

  /** A page the sweep looks at: on a PDF file and not past pass 1. */
  predicate IsOrphan(p: Page, files: seq<ProjectFile>) {
    OnPdf(p, files) && p.status in Pass1Statuses
  }

  function Orphans(pages: seq<Page>, files: seq<ProjectFile>): (r: seq<Page>)
    ensures forall p :: p in r <==> p in pages && IsOrphan(p, files)
  {
    if pages == [] then []
    else (if IsOrphan(pages[0], files) then [pages[0]] else []) + Orphans(pages[1..], files)
  }

  /** The orphans past the retry budget, as the sweep reports them. */
  function FailedPages(orphans: seq<Page>): (r: seq<FailedPage>)
    ensures |r| <= |orphans|
    decreases |orphans|
  {
    if orphans == [] then []
    else
      var p := orphans[|orphans| - 1];
      FailedPages(orphans[..|orphans| - 1])
      + (if p.retryCount >= MaxPageRetries then [FailedPage(p.id, SheetLabel(p))] else [])
  }

  /** How many orphans are still under the retry budget. */
  function RetryableCount(orphans: seq<Page>): (n: nat)
    ensures n <= |orphans|
    ensures n == 0 <==> forall p :: p in orphans ==> p.retryCount >= MaxPageRetries
    decreases |orphans|
  {
    if orphans == [] then 0
    else
      var init := orphans[..|orphans| - 1];
      var p := orphans[|orphans| - 1];
      assert orphans == init + [p];
      RetryableCount(init) + (if p.retryCount < MaxPageRetries then 1 else 0)
  }

  /** A page the sweep resets for another attempt. */
  predicate Retryable(p: Page, files: seq<ProjectFile>) {
    IsOrphan(p, files) && p.retryCount < MaxPageRetries
  }

  function ResetForRetry(p: Page): Page {
    p.(status := Unprocessed, retryCount := p.retryCount + 1, error := None)
  }

  function SweptPages(pages: seq<Page>, files: seq<ProjectFile>): (r: seq<Page>)
    ensures |r| == |pages|
    ensures forall i :: 0 <= i < |pages| ==> r[i] == if Retryable(pages[i], files) then ResetForRetry(pages[i]) else pages[i]
  {
    seq(|pages|, i requires 0 <= i < |pages| => if Retryable(pages[i], files) then ResetForRetry(pages[i]) else pages[i])
  }

  datatype SweepResult = SweepResult(retried: nat, failed: seq<FailedPage>)

  /** `_sweep_and_retry_orphans` */
  function SweepSpec(env: Env, s: State): (State, SweepResult) {
    var orphans := Orphans(s.pages, env.files);
    if orphans == [] then (s, SweepResult(0, []))
    else
      var failed := FailedPages(orphans);
      var s1 := if failed != [] then s.(events := s.events + [OrphansDetected(failed)]) else s;
      (s1.(pages := SweptPages(s.pages, env.files)), SweepResult(RetryableCount(orphans), failed))
  }

  /** `Σ max(0, 3 - retry_count)` over all pages. */
  function Budget(pages: seq<Page>): nat {
    if pages == [] then 0
    else (if pages[0].retryCount < MaxPageRetries then MaxPageRetries - pages[0].retryCount else 0) + Budget(pages[1..])
  }

  /** Two page tables with the same retry counts, position by position. */
  predicate SameRetries(a: seq<Page>, b: seq<Page>) {
    |a| == |b| && forall i :: 0 <= i < |a| ==> a[i].retryCount == b[i].retryCount
  }

  lemma {:induction false} BudgetOfSameRetries(a: seq<Page>, b: seq<Page>)
    requires SameRetries(a, b)
    ensures Budget(a) == Budget(b)
    decreases |a|
  {
    if a != [] {
      BudgetOfSameRetries(a[1..], b[1..]);
    }
  }

  /** Resetting pages never raises the budget; resetting at least one strictly lowers it. */
  lemma {:induction false} SweptBudget(pages: seq<Page>, files: seq<ProjectFile>)
    ensures Budget(SweptPages(pages, files)) <= Budget(pages)
    ensures (exists p :: p in pages && Retryable(p, files)) ==> Budget(SweptPages(pages, files)) < Budget(pages)
    decreases |pages|
  {
    if pages != [] {
      var r := SweptPages(pages, files);
      assert r[1..] == SweptPages(pages[1..], files);
      SweptBudget(pages[1..], files);
      if exists p :: p in pages && Retryable(p, files) {
        var p :| p in pages && Retryable(p, files);
        if p != pages[0] {
          assert p in pages[1..];
        }
      }
    }
  }

  lemma RetryableCountSpec(pages: seq<Page>, files: seq<ProjectFile>)
    ensures RetryableCount(Orphans(pages, files)) > 0 <==> exists p :: p in pages && Retryable(p, files)
  {
    if exists p :: p in pages && Retryable(p, files) {
      var p :| p in pages && Retryable(p, files);
      assert p in Orphans(pages, files);
    }
  }

  /**
   * The sweep resets exactly the orphans under the budget (to unprocessed,
   * one more retry, no error), leaves every other page as it was, and reports
   * how many it reset. Whenever it resets one, the total budget drops.
   */
  lemma SweepSpecFacts(env: Env, s: State)
    ensures var (s', res) := SweepSpec(env, s);
      s'.pages == SweptPages(s.pages, env.files)
      && (res.retried > 0 <==> exists p :: p in s.pages && Retryable(p, env.files))
      && (res.retried > 0 ==> Budget(s'.pages) < Budget(s.pages))
      && (res.retried == 0 ==> s'.pages == s.pages)
  {
    RetryableCountSpec(s.pages, env.files);
    SweptBudget(s.pages, env.files);
    var (s', res) := SweepSpec(env, s);
    if res.retried == 0 {
      assert forall i :: 0 <= i < |s.pages| ==> !Retryable(s.pages[i], env.files);
      assert SweptPages(s.pages, env.files) == s.pages;
    }
  }

  /** Pass 1 keeps the page positions and their retry counts. */
  lemma Pass1StepRetries(env: Env, s: State, id: nat)
    ensures SameRetries(Pass1Step(env, s, id).0.pages, s.pages)
  {
  }

  lemma Pass2StepRetries(env: Env, s: State, id: nat)
    ensures SameRetries(Pass2Step(env, s, id).0.pages, s.pages)
  {
    match IndexOfPage(s.pages, id)
    case None =>
    case Some(i) =>
      if env.oracle.pass2(s.calls).Success? {
        var s1 := s.(pages := s.pages[i := CompletePass2(s.pages[i], env.oracle.pass2(s.calls).value)], calls := s.calls + 1);
        CheckReadySpec(env, s1, s.pages[i].disciplineCode);
      }
  }

  lemma {:induction false} Pass1FoldRetries(env: Env, acc: Pass1Acc, sel: seq<Page>, total: nat)
    ensures SameRetries(Pass1Fold(env, acc, sel, total).s.pages, acc.s.pages)
    decreases |sel|
  {
    if sel != [] {
      var mid := Pass1Fold(env, acc, sel[..|sel| - 1], total);
      Pass1FoldRetries(env, acc, sel[..|sel| - 1], total);
      Pass1StepRetries(env, mid.s, sel[|sel| - 1].id);
    }
  }

  lemma {:induction false} Pass2FoldRetries(env: Env, acc: Pass2Acc, sel: seq<Page>, total: nat)
    ensures SameRetries(Pass2Fold(env, acc, sel, total).s.pages, acc.s.pages)
    decreases |sel|
  {
    if sel != [] {
      var mid := Pass2Fold(env, acc, sel[..|sel| - 1], total);
      Pass2FoldRetries(env, acc, sel[..|sel| - 1], total);
      Pass2StepRetries(env, mid.s, sel[|sel| - 1].id);
    }
  }

  /** Neither pass touches a retry count, so the retry loop's budget only moves in the sweep. */
  lemma PassesKeepBudget(env: Env, s: State)
    ensures Budget(RunPass1Spec(env, s).0.pages) == Budget(s.pages)
    ensures Budget(RunPass2Spec(env, s).0.pages) == Budget(s.pages)
  {
    var sel1 := PagesForProcessing(s.pages, env.files, env.pointers);
    if |sel1| > 0 {
      Pass1FoldRetries(env, Pass1Acc(s, 0, 0, []), sel1, |sel1|);
      BudgetOfSameRetries(RunPass1Spec(env, s).0.pages, s.pages);
    }
    var sel2 := PagesForPass2(s.pages, env.files, env.pointers);
    if |sel2| > 0 {
      Pass2FoldRetries(env, Pass2Acc(s, 0, 0), sel2, TotalPageCount(s.pages, env.files));
      BudgetOfSameRetries(RunPass2Spec(env, s).0.pages, s.pages);
    }
  }

  // ---------------------------------------------------------------------
  // Page rows for the pointed-at pages
  // ---------------------------------------------------------------------

  /** The first PDF file with the id: the `file_map` lookup. */
  function PdfFileOf(files: seq<ProjectFile>, id: nat): (r: Option<ProjectFile>)
    ensures r.Some? ==> r.value in files && IsPdf(r.value) && r.value.id == id
    ensures r.None? ==> forall f :: f in files && IsPdf(f) ==> f.id != id
  {
    if files == [] then None
    else if IsPdf(files[0]) && files[0].id == id then Some(files[0])
    else PdfFileOf(files[1..], id)
  }

  /** The pointed-at pages on PDF files, each once, in the order first met. */
  function PdfLocs(files: seq<ProjectFile>, pointers: seq<PointerLoc>): (r: seq<PointerLoc>)
    ensures forall l :: l in r <==> l in pointers && PdfFileOf(files, l.fileId).Some?
    ensures forall i, j :: 0 <= i < j < |r| ==> r[i] != r[j]
    decreases |pointers|
  {
    if pointers == [] then []
    else
      var r0 := PdfLocs(files, pointers[..|pointers| - 1]);
      var l := pointers[|pointers| - 1];
      assert pointers == pointers[..|pointers| - 1] + [l];
      if l in r0 || PdfFileOf(files, l.fileId).None? then r0 else r0 + [l]
  }

  /** The first page row for a file page. */
  function IndexOfKey(pages: seq<Page>, l: PointerLoc): (r: Option<nat>)
    ensures r.Some? ==> r.value < |pages| && pages[r.value].fileId == l.fileId && pages[r.value].pageNumber == l.pageNumber
    ensures r.None? ==> forall j :: 0 <= j < |pages| ==> !(pages[j].fileId == l.fileId && pages[j].pageNumber == l.pageNumber)
  {
    if pages == [] then None
    else if pages[0].fileId == l.fileId && pages[0].pageNumber == l.pageNumber then Some(0)
    else match IndexOfKey(pages[1..], l)
      case None => None
      case Some(k) => Some(k + 1)
  }

  function MaxPageId(pages: seq<Page>): (m: nat)
    ensures forall k :: 0 <= k < |pages| ==> pages[k].id <= m
  {
    if pages == [] then 0
    else
      var m := MaxPageId(pages[1..]);
      if pages[0].id > m then pages[0].id else m
  }

  /** A fresh, unprocessed row named after its file. */
  function NewPage(pages: seq<Page>, l: PointerLoc, fileName: string): Page {
    Page(MaxPageId(pages) + 1, l.fileId, l.pageNumber,
         SheetRefs.ExtractTitleFromFilename(fileName),
         SheetRefs.ExtractSheetNumberFromFilename(fileName).GetOr(""),
         Unprocessed, 0, "", "", [], None, [], None, [], "", None, None)
  }

  /** Fill an existing row's title and sheet number where they are empty. */
  function FillNames(p: Page, fileName: string): (r: Page)
    ensures r.id == p.id && r.fileId == p.fileId && r.pageNumber == p.pageNumber && r.status == p.status
    ensures p.title != "" ==> r.title == p.title
    ensures p.sheet != "" ==> r.sheet == p.sheet
  {
    p.(title := if p.title == "" then SheetRefs.ExtractTitleFromFilename(fileName) else p.title,
       sheet := if p.sheet == "" then SheetRefs.ExtractSheetNumberFromFilename(fileName).GetOr("") else p.sheet)
  }

  /** Two page tables whose first `n` rows are the same rows, perhaps with names filled in. */
  predicate SameRows(a: seq<Page>, b: seq<Page>, n: nat) {
    n <= |a| && n <= |b| && forall j :: 0 <= j < n ==>
      b[j].id == a[j].id && b[j].fileId == a[j].fileId && b[j].pageNumber == a[j].pageNumber && b[j].status == a[j].status
  }

  /** One pointed-at page of `ensure_page_contexts_exist`: create its row, or fill in the names of the row it has. */
  function EnsureLoc(files: seq<ProjectFile>, ps: seq<Page>, n: nat, l: PointerLoc): (r: (seq<Page>, nat))
    ensures |r.0| == |ps| + (r.1 - n) && n <= r.1 <= n + 1
    ensures SameRows(ps, r.0, |ps|)
    ensures forall k :: |ps| <= k < |r.0| ==> r.0[k].status == Unprocessed && r.0[k].retryCount == 0
  {
    match PdfFileOf(files, l.fileId)
    case None => (ps, n)
    case Some(f) =>
      match IndexOfKey(ps, l)
      case None => var p := NewPage(ps, l, f.name); AppendKeepsRows(ps, p); (ps + [p], n + 1)
      case Some(j) => FillKeepsRows(ps, j, f.name); (ps[j := FillNames(ps[j], f.name)], n)
  }

  lemma FillKeepsRows(ps: seq<Page>, j: nat, fileName: string)
    requires j < |ps|
    ensures SameRows(ps, ps[j := FillNames(ps[j], fileName)], |ps|)
  {
  }

  lemma AppendKeepsRows(ps: seq<Page>, p: Page)
    ensures SameRows(ps, ps + [p], |ps|)
    ensures (ps + [p])[|ps|] == p
  {
  }

  /** The loop of `ensure_page_contexts_exist`: the uncommitted rows and how many were created. */
  function EnsureFold(files: seq<ProjectFile>, pages: seq<Page>, locs: seq<PointerLoc>): (r: (seq<Page>, nat))
    ensures |r.0| == |pages| + r.1
    ensures SameRows(pages, r.0, |pages|)
    ensures forall k :: |pages| <= k < |r.0| ==> r.0[k].status == Unprocessed && r.0[k].retryCount == 0
    decreases |locs|
  {
    if locs == [] then (pages, 0)
    else
      var prev := EnsureFold(files, pages, locs[..|locs| - 1]);
      EnsureLoc(files, prev.0, prev.1, locs[|locs| - 1])
  }

  /** A row, once there, stays findable; the visited page gets one. */
  lemma EnsureLocCovers(files: seq<ProjectFile>, ps: seq<Page>, n: nat, l: PointerLoc, l': PointerLoc)
    ensures IndexOfKey(ps, l').Some? ==> IndexOfKey(EnsureLoc(files, ps, n, l).0, l').Some?
    ensures PdfFileOf(files, l.fileId).Some? ==> IndexOfKey(EnsureLoc(files, ps, n, l).0, l).Some?
  {
    match PdfFileOf(files, l.fileId)
    case None =>
    case Some(f) =>
      match IndexOfKey(ps, l)
      case None =>
        IndexOfKeyAppend(ps, NewPage(ps, l, f.name), l);
        IndexOfKeyAppend(ps, NewPage(ps, l, f.name), l');
      case Some(j) =>
        IndexOfKeySameKeys(ps, ps[j := FillNames(ps[j], f.name)], l');
        IndexOfKeySameKeys(ps, ps[j := FillNames(ps[j], f.name)], l);
  }

  /** Every pointed-at page on a PDF file has a row after the loop. */
  lemma {:induction false} EnsureFoldCovers(files: seq<ProjectFile>, pages: seq<Page>, locs: seq<PointerLoc>, l: PointerLoc)
    requires l in locs && PdfFileOf(files, l.fileId).Some?
    ensures IndexOfKey(EnsureFold(files, pages, locs).0, l).Some?
    decreases |locs|
  {
    var init := locs[..|locs| - 1];
    var last := locs[|locs| - 1];
    assert locs == init + [last];
    var (ps, n) := EnsureFold(files, pages, init);
    if l in init {
      EnsureFoldCovers(files, pages, init, l);
    }
    EnsureLocCovers(files, ps, n, last, l);
  }

  lemma {:induction false} IndexOfKeyAppend(ps: seq<Page>, p: Page, l: PointerLoc)
    ensures IndexOfKey(ps, l).Some? ==> IndexOfKey(ps + [p], l) == IndexOfKey(ps, l)
    ensures p.fileId == l.fileId && p.pageNumber == l.pageNumber ==> IndexOfKey(ps + [p], l).Some?
    decreases |ps|
  {
    if ps != [] {
      assert (ps + [p])[1..] == ps[1..] + [p];
      IndexOfKeyAppend(ps[1..], p, l);
    }
  }

  lemma {:induction false} IndexOfKeySameKeys(a: seq<Page>, b: seq<Page>, l: PointerLoc)
    requires |a| == |b| && SameRows(a, b, |a|)
    ensures IndexOfKey(a, l) == IndexOfKey(b, l)
    decreases |a|
  {
    if a != [] {
      IndexOfKeySameKeys(a[1..], b[1..], l);
    }
  }

  /**
   * `ensure_page_contexts_exist`: the rows after the call and the number
   * created. The filled-in names are committed only together with a new row.
   */
  function EnsurePagesSpec(env: Env, pages: seq<Page>): (seq<Page>, nat) {
    var r := EnsureFold(env.files, pages, PdfLocs(env.files, env.pointers));
    if r.1 > 0 then r else (pages, 0)
  }

  /**
   * Afterwards every pointed-at page of a PDF file has a row; the old rows
   * keep their ids, keys and statuses, and the new rows, exactly `created` of
   * them, are unprocessed with no retries.
   */
  lemma EnsurePagesCovers(env: Env, pages: seq<Page>)
    ensures var (ps, created) := EnsurePagesSpec(env, pages);
      |ps| == |pages| + created && SameRows(pages, ps, |pages|)
      && (forall k :: |pages| <= k < |ps| ==> ps[k].status == Unprocessed && ps[k].retryCount == 0)
      && (forall l :: l in env.pointers && PdfFileOf(env.files, l.fileId).Some? ==> IndexOfKey(ps, l).Some?)
  {
    var locs := PdfLocs(env.files, env.pointers);
    var (ps, n) := EnsureFold(env.files, pages, locs);
    forall l | l in env.pointers && PdfFileOf(env.files, l.fileId).Some?
      ensures IndexOfKey(EnsurePagesSpec(env, pages).0, l).Some?
    {
      EnsureFoldCovers(env.files, pages, locs, l);
      if n == 0 {
        IndexOfKeySameKeys(pages, ps, l);
      }
    }
  }

  // ---------------------------------------------------------------------
  // Pass 3
  // ---------------------------------------------------------------------

  /** A page pass 3 links to the discipline: on a PDF file, of the code, done with pass 2. */
  predicate LinkedBy(p: Page, files: seq<ProjectFile>, code: string) {
    OnPdf(p, files) && p.disciplineCode == code && p.status == Pass2Complete
  }

  /** Link the discipline to its PDF pages that finished pass 2; only `disciplineId` changes. */
  function LinkPages(pages: seq<Page>, files: seq<ProjectFile>, code: string, disciplineId: nat): (r: seq<Page>)
    ensures |r| == |pages|
    ensures forall j :: 0 <= j < |pages| ==> r[j] == pages[j].(disciplineId := r[j].disciplineId)
    ensures forall j :: 0 <= j < |pages| && LinkedBy(pages[j], files, code) ==> r[j].disciplineId == Some(disciplineId)
    ensures forall j :: 0 <= j < |pages| && !LinkedBy(pages[j], files, code) ==> r[j] == pages[j]
  {
    seq(|pages|, j requires 0 <= j < |pages| =>
      if LinkedBy(pages[j], files, code) then pages[j].(disciplineId := Some(disciplineId)) else pages[j])
  }

  /** `run_pass3` for a queued pair: true when the discipline's rollup was stored. */
  function Pass3Step(env: Env, s: State, e: QueueEntry): (State, bool) {
    if e.projectId != env.projectId then (s, false)
    else match IndexOfDiscipline(s.disciplines, e.code)
      case None => (s, false)
      case Some(k) =>
        var d := s.disciplines[k];
        match env.oracle.pass3(s.calls)
        case Failure(_) =>
          (s.(disciplines := s.disciplines[k := d.(status := Failed)], calls := s.calls + 1), false)
        case Success(reply) =>
          (s.(disciplines := s.disciplines[k := d.(context := reply.context, keyContents := reply.keyContents,
                                                  connections := reply.connections, status := Complete)],
              pages := LinkPages(s.pages, env.files, e.code, d.id),
              events := s.events + [DisciplineComplete(e.code, d.name, CodePagesComplete(s.pages, env.files, e.code), |reply.keyContents|)],
              calls := s.calls + 1), true)
  }

  /**
   * Pass 3 succeeds exactly when the discipline exists in the project and the
   * model answers; it then holds the reply and is complete, otherwise it is
   * marked as failed. Page statuses never change.
   */
  lemma Pass3Outcome(env: Env, s: State, e: QueueEntry)
    ensures var (s', ok) := Pass3Step(env, s, e);
      var k := IndexOfDiscipline(s.disciplines, e.code);
      (ok <==> (e.projectId == env.projectId && k.Some? && env.oracle.pass3(s.calls).Success?))
      && |s'.pages| == |s.pages| && |s'.disciplines| == |s.disciplines|
      && (forall j :: 0 <= j < |s.pages| ==> s'.pages[j].status == s.pages[j].status)
      && (ok ==> (s'.disciplines[k.value].status == Complete
            && s'.disciplines[k.value].context == env.oracle.pass3(s.calls).value.context))
      && (!ok && e.projectId == env.projectId && k.Some? ==> s'.disciplines[k.value].status == Failed)
      && (forall j :: 0 <= j < |s.disciplines| && (k.None? || j != k.value) ==> s'.disciplines[j] == s.disciplines[j])
  {
  }

  /** Pass 3 over a list of pairs, in order, counting successes and failures. */
  function Pass3Fold(env: Env, s: State, es: seq<QueueEntry>): (r: (State, Tally))
    ensures r.1.completed + r.1.errors == |es|
    decreases |es|
  {
    if es == [] then (s, Tally(0, 0))
    else
      var prev := Pass3Fold(env, s, es[..|es| - 1]);
      var t := prev.1;
      var step := Pass3Step(env, prev.0, es[|es| - 1]);
      (step.0, if step.1 then Tally(t.completed + 1, t.errors) else Tally(t.completed, t.errors + 1))
  }

  /** `process_queue`: the queue is drained front to back. */
  function ProcessQueueSpec(env: Env, s: State): (State, Tally) {
    var r := Pass3Fold(env, s, s.ready);
    (r.0.(ready := []), r.1)
  }

  /** The codes of the disciplines in the ready state, in table order. */
  function ReadyCodes(ds: seq<Discipline>, projectId: nat): (r: seq<QueueEntry>)
    ensures |r| <= |ds|
    ensures forall e :: e in r <==> e.projectId == projectId && exists d :: d in ds && d.status == Ready && d.code == e.code
  {
    if ds == [] then []
    else (if ds[0].status == Ready then [QueueEntry(ds[0].code, projectId)] else []) + ReadyCodes(ds[1..], projectId)
  }

  /** `process_all_ready`: the queue first, then whatever is still marked ready. */
  function ProcessAllReadySpec(env: Env, s: State): (State, Tally) {
    var queued := ProcessQueueSpec(env, s);
    var rest := Pass3Fold(env, queued.0, ReadyCodes(queued.0.disciplines, env.projectId));
    (rest.0, AddTally(queued.1, rest.1))
  }

  /** Every queued pair and every discipline left ready is tried once; the queue ends empty. */
  lemma ProcessAllReadyCounts(env: Env, s: State)
    ensures var (s', t) := ProcessAllReadySpec(env, s);
      var s1 := ProcessQueueSpec(env, s).0;
      t.completed + t.errors == |s.ready| + |ReadyCodes(s1.disciplines, env.projectId)|
      && s'.ready == []
  {
    var (s1, t1) := ProcessQueueSpec(env, s);
    Pass3FoldKeepsQueue(env, s1, ReadyCodes(s1.disciplines, env.projectId));
  }

  lemma {:induction false} Pass3FoldKeepsQueue(env: Env, s: State, es: seq<QueueEntry>)
    ensures Pass3Fold(env, s, es).0.ready == s.ready
    decreases |es|
  {
    if es != [] {
      Pass3FoldKeepsQueue(env, s, es[..|es| - 1]);
    }
  }

  // ---------------------------------------------------------------------
  // A whole run
  // ---------------------------------------------------------------------

  /** One round of the retry loop of `start_processing`: pass 1, pass 2, then a sweep. */
  function RetryRoundSpec(env: Env, s: State, t1: Tally, t2: Tally): (r: (State, Tally, Tally, SweepResult))
    ensures Budget(r.0.pages) <= Budget(s.pages)
    ensures r.3.retried > 0 ==> Budget(r.0.pages) < Budget(s.pages)
    ensures r.3.retried == 0 ==> ((forall p :: p in r.0.pages ==> !Retryable(p, env.files))
      && r.3.failed == FailedPages(Orphans(r.0.pages, env.files)))
  {
    var pass1 := RunPass1Spec(env, s);
    var pass2 := RunPass2Spec(env, pass1.0);
    var sweep := SweepSpec(env, pass2.0);
    PassesKeepBudget(env, s);
    PassesKeepBudget(env, pass1.0);
    SweepSpecFacts(env, pass2.0);
    var r := (sweep.0, AddTally(t1, pass1.1), AddTally(t2, pass2.1), sweep.1);
    if sweep.1.retried == 0 then (SweepFailedIsFinal(env, pass2.0); r) else r
  }

  /** The retry loop: rounds until a sweep resets nothing. */
  function RetryLoop(env: Env, s: State, t1: Tally, t2: Tally): (r: (State, Tally, Tally, SweepResult))
    ensures forall p :: p in r.0.pages ==> !Retryable(p, env.files)
    ensures r.3.retried == 0 && r.3.failed == FailedPages(Orphans(r.0.pages, env.files))
    decreases Budget(s.pages)
  {
    var r := RetryRoundSpec(env, s, t1, t2);
    if r.3.retried > 0 then RetryLoop(env, r.0, r.1, r.2) else r
  }

  /** A sweep that resets nothing reports exactly the pages out of retries. */
  lemma SweepFailedIsFinal(env: Env, s: State)
    requires SweepSpec(env, s).1.retried == 0
    ensures SweepSpec(env, s).1.failed == FailedPages(Orphans(SweepSpec(env, s).0.pages, env.files))
    ensures forall p :: p in SweepSpec(env, s).0.pages ==> !Retryable(p, env.files)
  {
    SweepSpecFacts(env, s);
    RetryableCountSpec(s.pages, env.files);
  }

  /** The first part of `start_processing`: page rows, pass 1, the reference inversion, pass 2 and propagation. */
  function PassesSpec(env: Env, s: State): (State, Tally, Tally) {
    var s0 := s.(pages := EnsurePagesSpec(env, s.pages).0);
    var total1 := |PagesForProcessing(s0.pages, env.files, env.pointers)|;
    var s1 := s0.(events := s0.events + [ProcessingStarted(total1)]);
    var pass1 := if total1 > 0 then RunPass1Spec(env, s1) else (s1, Tally(0, 0));
    var s3 := pass1.0.(pages := Inbound.ComputedInbound(pass1.0.pages, env.files));
    var total2 := |PagesForPass2(s3.pages, env.files, env.pointers)|;
    var pass2 := if total2 > 0 then RunPass2Spec(env, s3) else (s3, Tally(0, 0));
    (pass2.0.(pages := Inbound.Propagated(pass2.0.pages, env.files)), pass1.1, pass2.1)
  }

  /** The end of `start_processing`: a sweep, then retry rounds while a sweep resets pages. */
  function SettleSpec(env: Env, s: State, t1: Tally, t2: Tally): (r: (State, Tally, Tally, SweepResult))
    ensures forall p :: p in r.0.pages ==> !Retryable(p, env.files)
    ensures r.3.failed == FailedPages(Orphans(r.0.pages, env.files))
  {
    var sweep := SweepSpec(env, s);
    SweepSpecFacts(env, s);
    if sweep.1.retried > 0 then RetryLoop(env, sweep.0, t1, t2)
    else (SweepFailedIsFinal(env, s); (sweep.0, t1, t2, sweep.1))
  }

  /** `start_processing` */
  function StartSpec(env: Env, s: State): (r: (State, Summary))
    ensures forall p :: p in r.0.pages ==> !Retryable(p, env.files)
    ensures r.1.permanentlyFailed == FailedPages(Orphans(r.0.pages, env.files))
  {
    var passes := PassesSpec(env, s);
    var last := SettleSpec(env, passes.0, passes.1, passes.2);
    var summary := Summary(last.1.completed, last.1.errors, last.2.completed, last.2.errors, last.3.failed);
    (last.0.(events := last.0.events + [ProcessingComplete(summary)]), summary)
  }

  datatype ProjectTally = ProjectTally(
    pass1Completed: nat, pass1Errors: nat,
    pass2Completed: nat, pass2Errors: nat,
    pass3Completed: nat, pass3Errors: nat)

  /** `process_project_context_tree`: page processing, then pass 3 of every ready discipline. */
  function ProcessProjectSpec(env: Env, s: State): (State, ProjectTally) {
    var start := StartSpec(env, s.(ready := []));
    var summary := start.1;
    var pass3 := ProcessAllReadySpec(env, start.0);
    (pass3.0, ProjectTally(summary.pass1Completed, summary.pass1Errors, summary.pass2Completed, summary.pass2Errors,
                           pass3.1.completed, pass3.1.errors))
  }

  /**
   * A run ends with every page on a PDF file either past pass 1 or out of
   * retries, and it reports exactly the latter as permanently failed.
   */
  lemma RunEndsSettled(env: Env, s: State)
    ensures var (s', t) := ProcessProjectSpec(env, s);
      var (s1, summary) := StartSpec(env, s.(ready := []));
      (forall p :: p in s1.pages ==> !Retryable(p, env.files))
      && summary.permanentlyFailed == FailedPages(Orphans(s1.pages, env.files))
      && s'.ready == []
  {
    var (s1, summary) := StartSpec(env, s.(ready := []));
    ProcessAllReadyCounts(env, s1);
  }

  /** As written, a pass-1 step never completes its page and leaves the discipline rows alone. */
  lemma NoPageCompletesAsWritten(env: Env, s: State, id: nat)
    requires !env.oracle.promptBuilds
    ensures var (s', r) := Pass1Step(env, s, id);
      r.Pass1Done? == false && s'.disciplines == s.disciplines
  {
  }
}
