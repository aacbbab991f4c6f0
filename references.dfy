/**
 * Cross-references between sheets: inverting the outbound references pass 1
 * finds into each target page's inbound list, and copying the context pass 2
 * gives each reference onto the inbound entries it produced.
 */
module Inbound {
  import opened Wrappers
  import opened ContextData
  import SheetRefs

  // ---------------------------------------------------------------------
  // compute_inbound_references
  // ---------------------------------------------------------------------

  /** A page of one of the project's files (any file, PDF or not). */
  predicate InProject(p: Page, files: seq<ProjectFile>) {
    exists f :: f in files && f.id == p.fileId
  }

  /** The pages the inversion reads and rewrites: the project's `pass1_complete` pages. */
  predicate IsSource(p: Page, files: seq<ProjectFile>) {
    InProject(p, files) && p.status == Pass1Complete
  }

  function Sources(pages: seq<Page>, files: seq<ProjectFile>): (r: seq<Page>)
    ensures forall p :: p in r <==> p in pages && IsSource(p, files)
  {
    if pages == [] then []
    else (if IsSource(pages[0], files) then [pages[0]] else []) + Sources(pages[1..], files)
  }

  /** The pointers pass 1 stored for a page (`page.pass1_output or {}`). */
  function Pointers(p: Page): seq<PointerAnalysis> {
    if p.pass1.Some? then p.pass1.value.pointers else []
  }

  /** The normalised sheet number a page is filed under in `page_lookup`. */
  function SheetKey(p: Page): string {
    SheetRefs.NormalizeSheetRef(p.sheet)
  }

  /** A lookup from `key(p)` to the sheet number of every page that has one; a later page overrides an earlier one. */
  function KeyedLookup(ps: seq<Page>, key: Page -> string): map<string, string>
    decreases |ps|
  {
    if ps == [] then map[]
    else
      var m := KeyedLookup(ps[..|ps| - 1], key);
      var p := ps[|ps| - 1];
      if p.sheet != "" then m[key(p) := p.sheet] else m
  }

  /** `page_lookup`: normalised sheet number to sheet number; a later page overrides an earlier one. */
  function PageLookup(ps: seq<Page>): map<string, string> {
    KeyedLookup(ps, SheetKey)
  }

  /** An outbound reference resolves when its normalised form is non-empty and names a known sheet. */
  predicate Resolves(ref: OutboundRef, lookup: map<string, string>) {
    var n := SheetRefs.NormalizeSheetRef(ref.ref);
    n != "" && n in lookup
  }

  /** The inbound entry a resolved reference adds to its target; it has no context yet. */
  function EntryFor(src: Page, ptr: PointerAnalysis, ref: OutboundRef): InboundRef {
    InboundRef(src.sheet, src.id, ptr.pointerId, ref.refType.GetOr(""), ref.ref, ref.elementId, ref.sourceText, None)
  }

  /** A (target sheet, entry) pair of the inbound map. */
  type Target = (string, InboundRef)

  function RefsEntries(src: Page, ptr: PointerAnalysis, refs: seq<OutboundRef>, lookup: map<string, string>): seq<Target>
    decreases |refs|
  {
    if refs == [] then []
    else
      var ref := refs[|refs| - 1];
      RefsEntries(src, ptr, refs[..|refs| - 1], lookup)
      + (if Resolves(ref, lookup) then [(lookup[SheetRefs.NormalizeSheetRef(ref.ref)], EntryFor(src, ptr, ref))] else [])
  }

  function PointersEntries(src: Page, ptrs: seq<PointerAnalysis>, lookup: map<string, string>): seq<Target>
    decreases |ptrs|
  {
    if ptrs == [] then []
    else
      var ptr := ptrs[|ptrs| - 1];
      PointersEntries(src, ptrs[..|ptrs| - 1], lookup) + RefsEntries(src, ptr, ptr.outboundRefs, lookup)
  }

  /** Every (target, entry) pair the pages produce, in page, pointer and reference order. */
  function PagesEntries(ps: seq<Page>, lookup: map<string, string>): seq<Target>
    decreases |ps|
  {
    if ps == [] then []
    else
      var p := ps[|ps| - 1];
      PagesEntries(ps[..|ps| - 1], lookup) + PointersEntries(p, Pointers(p), lookup)
  }

  /** `inbound_map.get(sheet, [])` for the map built from `entries`. */
  function InboundOf(entries: seq<Target>, sheet: string): seq<InboundRef>
    decreases |entries|
  {
    if entries == [] then []
    else
      var e := entries[|entries| - 1];
      InboundOf(entries[..|entries| - 1], sheet) + (if e.0 == sheet then [e.1] else [])
  }

  /** The inbound list `compute_inbound_references` writes on a source page. */
  function NewInbound(pages: seq<Page>, files: seq<ProjectFile>, sheet: string): seq<InboundRef> {
    var sources := Sources(pages, files);
    InboundOf(PagesEntries(sources, PageLookup(sources)), sheet)
  }

  /** The page table after `compute_inbound_references`: each source page's inbound list is replaced. */
  function ComputedInbound(pages: seq<Page>, files: seq<ProjectFile>): (r: seq<Page>)
    ensures |r| == |pages|
    ensures forall i :: 0 <= i < |pages| && !IsSource(pages[i], files) ==> r[i] == pages[i]
    ensures forall i :: 0 <= i < |pages| && IsSource(pages[i], files) ==>
      r[i] == pages[i].(inbound := NewInbound(pages, files, pages[i].sheet))
  {
    seq(|pages|, i requires 0 <= i < |pages| =>
      if IsSource(pages[i], files) then pages[i].(inbound := NewInbound(pages, files, pages[i].sheet)) else pages[i])
  }

  // The facts the inversion promises.

  /** A key is in the lookup exactly when some page with a sheet number is filed under it. */
  lemma {:induction false} KeyedLookupKeys(ps: seq<Page>, key: Page -> string, n: string)
    ensures n in KeyedLookup(ps, key) <==> exists i :: 0 <= i < |ps| && ps[i].sheet != "" && key(ps[i]) == n
    decreases |ps|
  {
    if ps != [] {
      var init := ps[..|ps| - 1];
      KeyedLookupKeys(init, key, n);
      if n in KeyedLookup(ps, key) {
        if n in KeyedLookup(init, key) {
          var i :| 0 <= i < |init| && init[i].sheet != "" && key(init[i]) == n;
          assert ps[i] == init[i];
        }
      } else {
        forall i | 0 <= i < |ps| ensures !(ps[i].sheet != "" && key(ps[i]) == n) {
          if i < |init| {
            assert ps[i] == init[i];
          }
        }
      }
    }
  }

  /** The lookup maps a key to the sheet number of the last page filed under it. */
  lemma {:induction false} KeyedLookupLast(ps: seq<Page>, key: Page -> string, n: string, i: nat)
    requires i < |ps| && ps[i].sheet != "" && key(ps[i]) == n
    requires forall j :: i < j < |ps| ==> !(ps[j].sheet != "" && key(ps[j]) == n)
    ensures n in KeyedLookup(ps, key) && KeyedLookup(ps, key)[n] == ps[i].sheet
    decreases |ps|
  {
    var init := ps[..|ps| - 1];
    if i < |init| {
      assert init[i] == ps[i];
      KeyedLookupLast(init, key, n, i);
    }
  }

  /** The page carries a sheet number whose normalised form is `n`. */
  predicate HasSheetKey(p: Page, n: string) {
    p.sheet != "" && SheetKey(p) == n
  }

  /** A sheet is in the lookup exactly when some page carries a sheet number normalising to it. */
  lemma PageLookupKeys(ps: seq<Page>, n: string)
    ensures n in PageLookup(ps) <==> exists i :: 0 <= i < |ps| && HasSheetKey(ps[i], n)
  {
    KeyedLookupKeys(ps, SheetKey, n);
  }

  /** The lookup maps `n` to the sheet number of the last page carrying one that normalises to `n`. */
  lemma PageLookupLast(ps: seq<Page>, n: string, i: nat)
    requires i < |ps| && HasSheetKey(ps[i], n)
    requires forall j :: i < j < |ps| ==> !HasSheetKey(ps[j], n)
    ensures n in PageLookup(ps) && PageLookup(ps)[n] == ps[i].sheet
  {
    KeyedLookupLast(ps, SheetKey, n, i);
  }

  /** The inbound map keeps entries in the order they were produced: appending entries appends to each list. */
  lemma {:induction false} InboundOfAppend(a: seq<Target>, b: seq<Target>, sheet: string)
    ensures InboundOf(a + b, sheet) == InboundOf(a, sheet) + InboundOf(b, sheet)
    decreases |b|
  {
    if b != [] {
      var e := b[|b| - 1];
      assert (a + b)[..|a + b| - 1] == a + b[..|b| - 1];
      assert (a + b)[|a + b| - 1] == e;
      InboundOfAppend(a, b[..|b| - 1], sheet);
      var last := if e.0 == sheet then [e.1] else [];
      calc {
        InboundOf(a + b, sheet);
        InboundOf(a + b[..|b| - 1], sheet) + last;
        InboundOf(a, sheet) + InboundOf(b[..|b| - 1], sheet) + last;
        InboundOf(a, sheet) + (InboundOf(b[..|b| - 1], sheet) + last);
        InboundOf(a, sheet) + InboundOf(b, sheet);
      }
    } else {
      assert a + b == a;
    }
  }

  /** `sheet` receives `e` from `entries` exactly when some pair targets `sheet` with `e`. */
  lemma {:induction false} InboundOfMember(entries: seq<Target>, sheet: string, e: InboundRef)
    ensures e in InboundOf(entries, sheet) <==> (sheet, e) in entries
    decreases |entries|
  {
    if entries != [] {
      var init := entries[..|entries| - 1];
      InboundOfMember(init, sheet, e);
      assert entries == init + [entries[|entries| - 1]];
    }
  }

  /** The (target, entry) pair a resolved reference of `src`'s pointer `ptr` contributes. */
  predicate Yields(src: Page, ptr: PointerAnalysis, ref: OutboundRef, lookup: map<string, string>, t: Target) {
    Resolves(ref, lookup) && t == (lookup[SheetRefs.NormalizeSheetRef(ref.ref)], EntryFor(src, ptr, ref))
  }

  lemma {:induction false} RefsEntriesSpec(src: Page, ptr: PointerAnalysis, refs: seq<OutboundRef>, lookup: map<string, string>, t: Target)
    ensures t in RefsEntries(src, ptr, refs, lookup) <==> exists ref :: ref in refs && Yields(src, ptr, ref, lookup, t)
    decreases |refs|
  {
    if refs != [] {
      var init := refs[..|refs| - 1];
      var last := refs[|refs| - 1];
      assert refs == init + [last];
      RefsEntriesSpec(src, ptr, init, lookup, t);
      var tail := if Resolves(last, lookup) then [(lookup[SheetRefs.NormalizeSheetRef(last.ref)], EntryFor(src, ptr, last))] else [];
      assert RefsEntries(src, ptr, refs, lookup) == RefsEntries(src, ptr, init, lookup) + tail;
      assert t in tail <==> Yields(src, ptr, last, lookup, t);
      if exists ref :: ref in refs && Yields(src, ptr, ref, lookup, t) {
        var ref :| ref in refs && Yields(src, ptr, ref, lookup, t);
        if ref != last {
          assert ref in init;
        }
      }
    }
  }

  lemma {:induction false} PointersEntriesSpec(src: Page, ptrs: seq<PointerAnalysis>, lookup: map<string, string>, t: Target)
    ensures t in PointersEntries(src, ptrs, lookup) <==>
      exists ptr, ref :: ptr in ptrs && ref in ptr.outboundRefs && Yields(src, ptr, ref, lookup, t)
    decreases |ptrs|
  {
    if ptrs != [] {
      var init := ptrs[..|ptrs| - 1];
      var last := ptrs[|ptrs| - 1];
      assert ptrs == init + [last];
      PointersEntriesSpec(src, init, lookup, t);
      RefsEntriesSpec(src, last, last.outboundRefs, lookup, t);
      if exists ptr, ref :: ptr in ptrs && ref in ptr.outboundRefs && Yields(src, ptr, ref, lookup, t) {
        var ptr, ref :| ptr in ptrs && ref in ptr.outboundRefs && Yields(src, ptr, ref, lookup, t);
        if ptr != last {
          assert ptr in init;
        }
      }
    }
  }

  lemma {:induction false} PagesEntriesSpec(ps: seq<Page>, lookup: map<string, string>, t: Target)
    ensures t in PagesEntries(ps, lookup) <==>
      exists src, ptr, ref :: src in ps && ptr in Pointers(src) && ref in ptr.outboundRefs && Yields(src, ptr, ref, lookup, t)
    decreases |ps|
  {
    if ps != [] {
      var init := ps[..|ps| - 1];
      var last := ps[|ps| - 1];
      assert ps == init + [last];
      PagesEntriesSpec(init, lookup, t);
      PointersEntriesSpec(last, Pointers(last), lookup, t);
      if exists src, ptr, ref :: src in ps && ptr in Pointers(src) && ref in ptr.outboundRefs && Yields(src, ptr, ref, lookup, t) {
        var src, ptr, ref :| src in ps && ptr in Pointers(src) && ref in ptr.outboundRefs && Yields(src, ptr, ref, lookup, t);
        if src != last {
          assert src in init;
        }
      }
    }
  }

  /** Who produced an inbound entry of the page with sheet number `sheet`. */
  predicate ProducedBy(pages: seq<Page>, files: seq<ProjectFile>, sheet: string, e: InboundRef) {
    exists src, ptr, ref :: src in pages && IsSource(src, files) && ptr in Pointers(src) && ref in ptr.outboundRefs
      && Yields(src, ptr, ref, PageLookup(Sources(pages, files)), (sheet, e))
  }

  /**
   * An entry lands on the page with sheet `sheet` exactly when some source page
   * has a pointer with a reference that resolves to `sheet`; the entry records
   * the referring page's sheet, id and pointer, and the raw reference text,
   * and carries no context.
   */
  lemma InboundEntrySpec(pages: seq<Page>, files: seq<ProjectFile>, sheet: string, e: InboundRef)
    ensures e in NewInbound(pages, files, sheet) <==> ProducedBy(pages, files, sheet, e)
    ensures e in NewInbound(pages, files, sheet) ==> e.context.None? && e.originalRef != ""
  {
    var sources := Sources(pages, files);
    var lookup := PageLookup(sources);
    InboundOfMember(PagesEntries(sources, lookup), sheet, e);
    PagesEntriesSpec(sources, lookup, (sheet, e));
    if e in NewInbound(pages, files, sheet) {
      var src, ptr, ref :| src in sources && ptr in Pointers(src) && ref in ptr.outboundRefs && Yields(src, ptr, ref, lookup, (sheet, e));
      assert src in pages && IsSource(src, files);
      EmptyRefDoesNotResolve(ref, lookup);
    }
    if ProducedBy(pages, files, sheet, e) {
      var src, ptr, ref :| src in pages && IsSource(src, files) && ptr in Pointers(src) && ref in ptr.outboundRefs
        && Yields(src, ptr, ref, lookup, (sheet, e));
      assert src in sources;
    }
  }

  /** An empty reference normalises to "" and so never resolves. */
  lemma EmptyRefDoesNotResolve(ref: OutboundRef, lookup: map<string, string>)
    ensures Resolves(ref, lookup) ==> ref.ref != ""
  {
  }

  /**
   * A reference lands in the inbound list of the last source page whose
   * sheet number normalises to the same non-empty form: "A-101", "a.101"
   * and "A101" all reach the page numbered "A101".
   */
  lemma ReferenceReachesPage(pages: seq<Page>, files: seq<ProjectFile>, src: Page, ptr: PointerAnalysis, ref: OutboundRef, t: nat)
    requires src in pages && IsSource(src, files) && ptr in Pointers(src) && ref in ptr.outboundRefs
    requires SheetRefs.NormalizeSheetRef(ref.ref) != ""
    requires t < |Sources(pages, files)| && HasSheetKey(Sources(pages, files)[t], SheetRefs.NormalizeSheetRef(ref.ref))
    requires forall j :: t < j < |Sources(pages, files)| ==> !HasSheetKey(Sources(pages, files)[j], SheetRefs.NormalizeSheetRef(ref.ref))
    ensures EntryFor(src, ptr, ref) in NewInbound(pages, files, Sources(pages, files)[t].sheet)
  {
    var sources := Sources(pages, files);
    PageLookupLast(sources, SheetRefs.NormalizeSheetRef(ref.ref), t);
    assert Yields(src, ptr, ref, PageLookup(sources), (sources[t].sheet, EntryFor(src, ptr, ref)));
    InboundEntrySpec(pages, files, sources[t].sheet, EntryFor(src, ptr, ref));
  }

  // ---------------------------------------------------------------------
  // propagate_inbound_context
  // ---------------------------------------------------------------------

  /** The pages propagation reads and updates: the project's `pass2_complete` pages. */
  predicate IsTarget(p: Page, files: seq<ProjectFile>) {
    InProject(p, files) && p.status == Pass2Complete
  }

  function Targets(pages: seq<Page>, files: seq<ProjectFile>): (r: seq<Page>)
    ensures forall p :: p in r <==> p in pages && IsTarget(p, files)
  {
    if pages == [] then []
    else (if IsTarget(pages[0], files) then [pages[0]] else []) + Targets(pages[1..], files)
  }

  /** The reference contexts pass 2 stored for a page (`page.pass2_output or {}`). */
  function RefContexts(p: Page): seq<RefContext> {
    if p.pass2.Some? then p.pass2.value.refContexts else []
  }

  type ContextKey = (string, string)

  function AddContexts(m: map<ContextKey, string>, sheet: string, rcs: seq<RefContext>): map<ContextKey, string>
    decreases |rcs|
  {
    if rcs == [] then m
    else
      var m' := AddContexts(m, sheet, rcs[..|rcs| - 1]);
      var rc := rcs[|rcs| - 1];
      if rc.ref != "" && sheet != "" then m'[(sheet, rc.ref) := rc.context] else m'
  }

  /** `context_lookup`: (source sheet, reference) to the context pass 2 gave it; later entries override. */
  function ContextLookup(ps: seq<Page>): map<ContextKey, string>
    decreases |ps|
  {
    if ps == [] then map[]
    else
      var p := ps[|ps| - 1];
      AddContexts(ContextLookup(ps[..|ps| - 1]), p.sheet, RefContexts(p))
  }

  /** One inbound entry after propagation. */
  function PropagateEntry(e: InboundRef, lookup: map<ContextKey, string>): (r: InboundRef)
    ensures r.context.Some?
    ensures r == e.(context := r.context)
    ensures (e.sourceSheet, e.originalRef) in lookup ==> r.context == Some(lookup[(e.sourceSheet, e.originalRef)])
    ensures (e.sourceSheet, e.originalRef) !in lookup ==> r.context == (if e.context.Some? then e.context else Some(""))
  {
    var key := (e.sourceSheet, e.originalRef);
    if key in lookup then e.(context := Some(lookup[key]))
    else if e.context.None? then e.(context := Some(""))
    else e
  }

  function PropagateAll(inbound: seq<InboundRef>, lookup: map<ContextKey, string>): (r: seq<InboundRef>)
    ensures |r| == |inbound|
    ensures forall j :: 0 <= j < |inbound| ==> r[j] == PropagateEntry(inbound[j], lookup)
  {
    seq(|inbound|, j requires 0 <= j < |inbound| => PropagateEntry(inbound[j], lookup))
  }

  /** Every target page's inbound entries propagated against `lookup`. */
  function PropagatedWith(pages: seq<Page>, files: seq<ProjectFile>, lookup: map<ContextKey, string>): (r: seq<Page>)
    ensures |r| == |pages|
    ensures forall i :: 0 <= i < |pages| ==>
      r[i] == if IsTarget(pages[i], files) then pages[i].(inbound := PropagateAll(pages[i].inbound, lookup)) else pages[i]
  {
    seq(|pages|, i requires 0 <= i < |pages| =>
      if IsTarget(pages[i], files) then pages[i].(inbound := PropagateAll(pages[i].inbound, lookup)) else pages[i])
  }

  /** The page table after `propagate_inbound_context`. */
  function Propagated(pages: seq<Page>, files: seq<ProjectFile>): (r: seq<Page>)
    ensures |r| == |pages|
    ensures forall i :: 0 <= i < |pages| && !IsTarget(pages[i], files) ==> r[i] == pages[i]
    ensures forall i :: 0 <= i < |pages| && IsTarget(pages[i], files) ==>
      r[i] == pages[i].(inbound := PropagateAll(pages[i].inbound, ContextLookup(Targets(pages, files))))
  {
    PropagatedWith(pages, files, ContextLookup(Targets(pages, files)))
  }

  /** Afterwards every inbound entry of a `pass2_complete` page has a context. */
  lemma PropagatedHaveContext(pages: seq<Page>, files: seq<ProjectFile>)
    ensures forall i, j :: 0 <= i < |pages| && IsTarget(pages[i], files) && 0 <= j < |Propagated(pages, files)[i].inbound| ==> Propagated(pages, files)[i].inbound[j].context.Some?
  {
  }

  /** Two pages that agree on what the context lookup reads. */
  predicate SameData(a: Page, b: Page) {
    a.sheet == b.sheet && RefContexts(a) == RefContexts(b)
  }

  /** The lookup depends only on the pages' sheets and reference contexts. */
  lemma {:induction false} LookupDependsOnData(a: seq<Page>, b: seq<Page>)
    requires |a| == |b| && forall k :: 0 <= k < |a| ==> SameData(a[k], b[k])
    ensures ContextLookup(a) == ContextLookup(b)
    decreases |a|
  {
    if a != [] {
      LookupDependsOnData(a[..|a| - 1], b[..|b| - 1]);
      assert SameData(a[|a| - 1], b[|b| - 1]);
    }
  }

  /** Propagation keeps each page's status, sheet and pass-2 output, hence the same targets with the same data. */
  lemma {:induction false} TargetsMatch(pages: seq<Page>, files: seq<ProjectFile>, lookup: map<ContextKey, string>)
    ensures |Targets(PropagatedWith(pages, files, lookup), files)| == |Targets(pages, files)|
    ensures forall k :: 0 <= k < |Targets(pages, files)| ==>
      SameData(Targets(PropagatedWith(pages, files, lookup), files)[k], Targets(pages, files)[k])
    decreases |pages|
  {
    if pages != [] {
      var r := PropagatedWith(pages, files, lookup);
      PropagatedWithHead(pages, files, lookup);
      TargetsMatch(pages[1..], files, lookup);
      var a, b := Targets(r[1..], files), Targets(pages[1..], files);
      if IsTarget(pages[0], files) {
        assert Targets(r, files) == [r[0]] + a;
        assert Targets(pages, files) == [pages[0]] + b;
        ConsSameData(r[0], pages[0], a, b);
      } else {
        assert Targets(r, files) == a;
        assert Targets(pages, files) == b;
      }
    }
  }

  /** Propagation works page by page and keeps what makes a page a target. */
  lemma PropagatedWithHead(pages: seq<Page>, files: seq<ProjectFile>, lookup: map<ContextKey, string>)
    requires pages != []
    ensures var r := PropagatedWith(pages, files, lookup);
      r[1..] == PropagatedWith(pages[1..], files, lookup)
      && IsTarget(r[0], files) == IsTarget(pages[0], files) && SameData(r[0], pages[0])
  {
    var r := PropagatedWith(pages, files, lookup);
    assert r[1..] == PropagatedWith(pages[1..], files, lookup);
  }

  /** Matching lists stay matching when a matching pair is put in front. */
  lemma ConsSameData(x: Page, y: Page, a: seq<Page>, b: seq<Page>)
    requires SameData(x, y) && |a| == |b| && forall k :: 0 <= k < |a| ==> SameData(a[k], b[k])
    ensures forall k :: 0 <= k < |a| + 1 ==> SameData(([x] + a)[k], ([y] + b)[k])
  {
    forall k | 0 <= k < |a| + 1
      ensures SameData(([x] + a)[k], ([y] + b)[k])
    {
      if k > 0 {
        assert ([x] + a)[k] == a[k - 1] && ([y] + b)[k] == b[k - 1];
      }
    }
  }

  /** Propagation leaves the lookup it builds unchanged. */
  lemma TargetsAfterPropagation(pages: seq<Page>, files: seq<ProjectFile>)
    ensures ContextLookup(Targets(Propagated(pages, files), files)) == ContextLookup(Targets(pages, files))
  {
    TargetsMatch(pages, files, ContextLookup(Targets(pages, files)));
    LookupDependsOnData(Targets(Propagated(pages, files), files), Targets(pages, files));
  }

  /** Running propagation twice gives the same table as running it once. */
  lemma PropagateIdempotent(pages: seq<Page>, files: seq<ProjectFile>)
    ensures Propagated(Propagated(pages, files), files) == Propagated(pages, files)
  {
    var r := Propagated(pages, files);
    TargetsAfterPropagation(pages, files);
    var lookup := ContextLookup(Targets(pages, files));
    var rr := Propagated(r, files);
    forall i | 0 <= i < |pages|
      ensures rr[i] == r[i]
    {
      if IsTarget(pages[i], files) {
        assert IsTarget(r[i], files);
        forall j | 0 <= j < |r[i].inbound|
          ensures PropagateEntry(r[i].inbound[j], lookup) == r[i].inbound[j]
        {
        }
      }
    }
  }
}
