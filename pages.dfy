/**
 * The records the context-tree pipeline keeps per project: page contexts,
 * discipline contexts, the project's files and where its context pointers
 * sit, and the queries that select pages for each pass.
 *
 * Database ids are natural numbers ordered as the database orders them.
 * A text column that may be NULL is a string whose empty value stands for
 * NULL: the pipeline only ever tests such columns for truthiness.
 */
module ContextData {
  import opened Wrappers
  import opened Text
  import Sorting

  datatype PageStatus =
    | Unprocessed
    | Pass1Processing
    | Pass1Complete
    | Pass2Processing
    | Pass2Complete
    | Error

  /** `Failed` is the "error" status. */
  datatype DisciplineStatus = Waiting | Ready | Processing | Complete | Failed

  /** A reference from a pointer to another sheet, as pass 1 reports it. */
  datatype OutboundRef = OutboundRef(ref: string, refType: Option<string>, elementId: string, sourceText: string)

  /** Pass 1's analysis of one context pointer. */
  datatype PointerAnalysis = PointerAnalysis(pointerId: string, summary: string, outboundRefs: seq<OutboundRef>)

  /** The parsed pass-1 reply; a missing `discipline` key is `None`, a missing `sheet_number` is "". */
  datatype Pass1Reply = Pass1Reply(discipline: Option<string>, summary: string, pointers: seq<PointerAnalysis>, sheetNumber: string)

  /** One entry of pass 2's `outbound_refs_context`. */
  datatype RefContext = RefContext(ref: string, context: string)

  datatype Pass2Reply = Pass2Reply(refContexts: seq<RefContext>)

  datatype Pass3Reply = Pass3Reply(context: string, keyContents: seq<string>, connections: seq<string>)

  /** The legacy `identifiers` entry. */
  datatype Identifier = Identifier(ref: string, refType: string, content: string)

  /** The legacy `cross_refs` entry. */
  datatype CrossRef = CrossRef(targetSheet: string, relationship: string)

  /** An entry of a page's `inbound_references`; `context` is `None` while the key is absent. */
  datatype InboundRef = InboundRef(
    sourceSheet: string,
    sourcePageId: nat,
    fromPointer: string,
    refType: string,
    originalRef: string,
    elementId: string,
    sourceText: string,
    context: Option<string>)

  /** A `PageContext` row. */
  datatype Page = Page(
    id: nat,
    fileId: nat,
    pageNumber: nat,
    title: string,
    sheet: string,
    status: PageStatus,
    retryCount: nat,
    disciplineCode: string,
    contextDescription: string,
    identifiers: seq<Identifier>,
    pass1: Option<Pass1Reply>,
    inbound: seq<InboundRef>,
    pass2: Option<Pass2Reply>,
    crossRefs: seq<CrossRef>,
    updatedContext: string,
    error: Option<string>,
    disciplineId: Option<nat>)

  /** A `DisciplineContext` row. */
  datatype Discipline = Discipline(
    id: nat,
    code: string,
    name: string,
    status: DisciplineStatus,
    context: string,
    keyContents: seq<string>,
    connections: seq<string>)

  /** A `ProjectFile` row of the project. */
  datatype ProjectFile = ProjectFile(id: nat, name: string, isFolder: bool)

  /** The page a context pointer sits on. */
  datatype PointerLoc = PointerLoc(fileId: nat, pageNumber: nat)

  /** `is_folder == False and name ILIKE '%.pdf'` */
  predicate IsPdf(f: ProjectFile) {
    !f.isFolder && EndsWith(Lower(f.name), ".pdf")
  }

  predicate OnPdf(p: Page, files: seq<ProjectFile>) {
    exists f :: f in files && IsPdf(f) && f.id == p.fileId
  }

  predicate HasPointers(p: Page, pointers: seq<PointerLoc>) {
    PointerLoc(p.fileId, p.pageNumber) in pointers
  }

  /** The file of a page, if the project still has it. */
  function FileOf(files: seq<ProjectFile>, id: nat): (r: Option<ProjectFile>)
    ensures r.Some? ==> r.value in files && r.value.id == id
    ensures r.None? ==> forall f :: f in files ==> f.id != id
  {
    if files == [] then None
    else if files[0].id == id then Some(files[0])
    else FileOf(files[1..], id)
  }

  function DigitChar(d: nat): (c: char)
    requires d < 10
    ensures IsDigit(c)
  {
    ('0' as int + d) as char
  }

  /** `str(n)` */
  function NatToString(n: nat): (s: string)
    ensures s != [] && forall i :: 0 <= i < |s| ==> IsDigit(s[i])
  {
    if n < 10 then [DigitChar(n)] else NatToString(n / 10) + [DigitChar(n % 10)]
  }

  /** `page.sheet_number or f"Page {page.page_number}"` */
  function SheetLabel(p: Page): (r: string)
    ensures p.sheet != "" ==> r == p.sheet
    ensures p.sheet == "" ==> StartsWith(r, "Page ")
  {
    if p.sheet != "" then p.sheet else "Page " + NatToString(p.pageNumber)
  }

  /** The order of `ORDER BY file_id, page_number`. */
  predicate KeyLe(a: Page, b: Page) {
    a.fileId < b.fileId || (a.fileId == b.fileId && a.pageNumber <= b.pageNumber)
  }

  lemma KeyLeTotal()
    ensures Sorting.Total(KeyLe)
  {
  }

  /** A page-selection query: pages on PDF files, with pointers, in one of `statuses`. */
  predicate Wanted(p: Page, files: seq<ProjectFile>, pointers: seq<PointerLoc>, statuses: set<PageStatus>) {
    OnPdf(p, files) && HasPointers(p, pointers) && p.status in statuses
  }

  function FilterWanted(pages: seq<Page>, files: seq<ProjectFile>, pointers: seq<PointerLoc>, statuses: set<PageStatus>): (r: seq<Page>)
    ensures forall p :: p in r <==> p in pages && Wanted(p, files, pointers, statuses)
  {
    if pages == [] then []
    else
      (if Wanted(pages[0], files, pointers, statuses) then [pages[0]] else [])
      + FilterWanted(pages[1..], files, pointers, statuses)
  }

  /** The pages a query returns, ordered by file and page number. */
  function Select(pages: seq<Page>, files: seq<ProjectFile>, pointers: seq<PointerLoc>, statuses: set<PageStatus>): (r: seq<Page>)
    ensures forall p :: p in r <==> p in pages && Wanted(p, files, pointers, statuses)
    ensures Sorting.SortedBy(r, KeyLe)
  {
    KeyLeTotal();
    var found := FilterWanted(pages, files, pointers, statuses);
    var r := Sorting.SortBy(found, KeyLe);
    assert forall p :: p in r <==> p in multiset(found);
    r
  }

  const Pass1Statuses: set<PageStatus> := {Unprocessed, Error, Pass1Processing}
  const Pass2Statuses: set<PageStatus> := {Pass1Complete, Pass2Processing}

  /** `get_pages_for_processing`: pages that need pass 1 (new, failed or interrupted). */
  function PagesForProcessing(pages: seq<Page>, files: seq<ProjectFile>, pointers: seq<PointerLoc>): (r: seq<Page>)
    ensures forall p :: p in r <==> (p in pages && OnPdf(p, files) && HasPointers(p, pointers)
      && (p.status == Unprocessed || p.status == Error || p.status == Pass1Processing))
    ensures Sorting.SortedBy(r, KeyLe)
  {
    Select(pages, files, pointers, Pass1Statuses)
  }

  /** `get_pages_for_pass2`: pages done with pass 1, or interrupted in pass 2. */
  function PagesForPass2(pages: seq<Page>, files: seq<ProjectFile>, pointers: seq<PointerLoc>): (r: seq<Page>)
    ensures forall p :: p in r <==> (p in pages && OnPdf(p, files) && HasPointers(p, pointers)
      && (p.status == Pass1Complete || p.status == Pass2Processing))
    ensures Sorting.SortedBy(r, KeyLe)
  {
    Select(pages, files, pointers, Pass2Statuses)
  }

  /** `get_total_page_count`: the pages on the project's PDF files, whatever their status. */
  function TotalPageCount(pages: seq<Page>, files: seq<ProjectFile>): (n: nat)
    ensures n <= |pages|
    ensures n == 0 <==> forall p :: p in pages ==> !OnPdf(p, files)
  {
    if pages == [] then 0
    else (if OnPdf(pages[0], files) then 1 else 0) + TotalPageCount(pages[1..], files)
  }

  /** The position of the page with id `id`, if any. */
  function IndexOfPage(pages: seq<Page>, id: nat): (r: Option<nat>)
    ensures r.Some? ==> (r.value < |pages| && pages[r.value].id == id
      && forall j :: 0 <= j < r.value ==> pages[j].id != id)
    ensures r.None? ==> forall j :: 0 <= j < |pages| ==> pages[j].id != id
  {
    if pages == [] then None
    else if pages[0].id == id then Some(0)
    else match IndexOfPage(pages[1..], id)
      case None => None
      case Some(k) => Some(k + 1)
  }
}
