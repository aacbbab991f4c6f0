/**
 * The context-tree processor working in place: one object holds the page and
 * discipline tables of a project, the pass-3 queue of the discipline
 * processor, the progress events emitted so far and the count of model calls.
 * Each method is proved to leave exactly the state the matching function of
 * `Lifecycle` (or `Inbound`) computes from the state before.
 */
module ContextTreeProcessor {
  import opened Wrappers
  import opened ContextData
  import opened Lifecycle
  import Inbound
  import SheetRefs

  /** `inbound_map.get(sheet, [])` */
  function Get(m: map<string, seq<InboundRef>>, sheet: string): seq<InboundRef> {
    if sheet in m then m[sheet] else []
  }

  // One more element of each of the inversion's folds.

  /** The `inbound_map` the entries build, one append at a time. */
  function InboundMap(entries: seq<Inbound.Target>): map<string, seq<InboundRef>>
    decreases |entries|
  {
    if entries == [] then map[]
    else
      var m := InboundMap(entries[..|entries| - 1]);
      var x := entries[|entries| - 1];
      m[x.0 := Get(m, x.0) + [x.1]]
  }

  /** Under each sheet the map holds the entries aimed at it, in order. */
  lemma {:induction false} InboundMapFiles(entries: seq<Inbound.Target>, t: string)
    ensures Get(InboundMap(entries), t) == Inbound.InboundOf(entries, t)
    decreases |entries|
  {
    if entries != [] {
      InboundMapFiles(entries[..|entries| - 1], t);
    }
  }

  lemma InboundMapSnoc(entries: seq<Inbound.Target>, x: Inbound.Target)
    ensures InboundMap(entries + [x]) == InboundMap(entries)[x.0 := Get(InboundMap(entries), x.0) + [x.1]]
  {
    assert (entries + [x])[..|entries|] == entries;
  }

  lemma AppendAssoc<T>(a: seq<T>, b: seq<T>, c: seq<T>)
    ensures (a + b) + c == a + (b + c)
  {
  }

  lemma InboundOfSnoc(entries: seq<Inbound.Target>, x: Inbound.Target, t: string)
    ensures Inbound.InboundOf(entries + [x], t) == Inbound.InboundOf(entries, t) + (if x.0 == t then [x.1] else [])
  {
    assert (entries + [x])[..|entries|] == entries;
  }

  lemma RefsEntriesStep(src: Page, ptr: PointerAnalysis, refs: seq<OutboundRef>, k: nat, lookup: map<string, string>)
    requires k < |refs|
    ensures Inbound.RefsEntries(src, ptr, refs[..k + 1], lookup)
      == Inbound.RefsEntries(src, ptr, refs[..k], lookup)
         + (if Inbound.Resolves(refs[k], lookup)
            then [(lookup[SheetRefs.NormalizeSheetRef(refs[k].ref)], Inbound.EntryFor(src, ptr, refs[k]))] else [])
  {
    assert refs[..k + 1][..k] == refs[..k];
  }

  lemma PointersEntriesStep(src: Page, ptrs: seq<PointerAnalysis>, j: nat, lookup: map<string, string>)
    requires j < |ptrs|
    ensures Inbound.PointersEntries(src, ptrs[..j + 1], lookup)
      == Inbound.PointersEntries(src, ptrs[..j], lookup) + Inbound.RefsEntries(src, ptrs[j], ptrs[j].outboundRefs, lookup)
  {
    assert ptrs[..j + 1][..j] == ptrs[..j];
  }

  lemma PagesEntriesStep(ps: seq<Page>, i: nat, lookup: map<string, string>)
    requires i < |ps|
    ensures Inbound.PagesEntries(ps[..i + 1], lookup)
      == Inbound.PagesEntries(ps[..i], lookup) + Inbound.PointersEntries(ps[i], Inbound.Pointers(ps[i]), lookup)
  {
    assert ps[..i + 1][..i] == ps[..i];
  }

  /** A row written twice holds the second value. */
  lemma UpdateTwice<T>(rows: seq<T>, i: nat, a: T, b: T)
    requires i < |rows|
    ensures rows[i := a][i := b] == rows[i := b]
  {
    var once, twice := rows[i := b], rows[i := a][i := b];
    assert |once| == |twice|;
    assert forall j :: 0 <= j < |once| ==> once[j] == twice[j];
  }

  /** Pass 3 neither reads nor changes the queue. */
  lemma Pass3StepIgnoresQueue(env: Env, s: State, e: QueueEntry, q: seq<QueueEntry>)
    ensures Pass3Step(env, s.(ready := q), e) == (Pass3Step(env, s, e).0.(ready := q), Pass3Step(env, s, e).1)
  {
  }

  /** The fold over the first `i + 1` queue entries is one more pass-3 step after the first `i`. */
  lemma Pass3FoldNext(env: Env, s0: State, q: seq<QueueEntry>, i: nat)
    requires i < |q|
    ensures var prev := Pass3Fold(env, s0, q[..i]);
      var step := Pass3Step(env, prev.0, q[i]);
      Pass3Fold(env, s0, q[..i + 1])
        == (step.0, if step.1 then Tally(prev.1.completed + 1, prev.1.errors) else Tally(prev.1.completed, prev.1.errors + 1))
  {
    assert q[..i + 1][..i] == q[..i];
  }

  /** The loop of pass 3 that points each page of the discipline's files at the discipline's row. */
  method LinkDisciplinePages(pages: seq<Page>, files: seq<ProjectFile>, code: string, disciplineId: nat)
    returns (ps: seq<Page>)
    ensures ps == LinkPages(pages, files, code, disciplineId)
  {
    ps := pages;
    var i := 0;
    while i < |ps|
      invariant 0 <= i <= |ps| == |pages|
      invariant forall j :: 0 <= j < i ==> ps[j] == LinkPages(pages, files, code, disciplineId)[j]
      invariant forall j :: i <= j < |ps| ==> ps[j] == pages[j]
    {
      if LinkedBy(ps[i], files, code) {
        ps := ps[i := ps[i].(disciplineId := Some(disciplineId))];
      }
      i := i + 1;
    }
  }

  class Pipeline {
    const env: Env
    var pages: seq<Page>
    var disciplines: seq<Discipline>
    var ready: seq<QueueEntry>
    var events: seq<Event>
    var calls: nat

    function Snapshot(): State
      reads this
    {
      State(pages, disciplines, ready, events, calls)
    }

    constructor (env: Env, pages: seq<Page>, disciplines: seq<Discipline>)
      ensures this.env == env
      ensures Snapshot() == State(pages, disciplines, [], [], 0)
    {
      this.env := env;
      this.pages := pages;
      this.disciplines := disciplines;
      ready := [];
      events := [];
      calls := 0;
    }

    /** `_emit_progress` */
    method Emit(e: Event)
      modifies this
      ensures Snapshot() == old(Snapshot()).(events := old(events) + [e])
    {
      events := events + [e];
    }

    // -------------------------------------------------------------------
    // compute_inbound_references and propagate_inbound_context
    // -------------------------------------------------------------------

    /** The sheet lookup of the source pages. */
    static method BuildPageLookup(sources: seq<Page>) returns (lookup: map<string, string>)
      ensures lookup == Inbound.PageLookup(sources)
    {
      lookup := map[];
      var i := 0;
      while i < |sources|
        invariant 0 <= i <= |sources|
        invariant lookup == Inbound.PageLookup(sources[..i])
      {
        var p := sources[i];
        if p.sheet != "" {
          lookup := lookup[SheetRefs.NormalizeSheetRef(p.sheet) := p.sheet];
        }
        assert sources[..i + 1][..i] == sources[..i];
        i := i + 1;
      }
      assert sources[..i] == sources;
    }

    /** The references of one pointer, filed under their target sheets. */
    static method FileRefs(src: Page, ptr: PointerAnalysis, lookup: map<string, string>,
                           inbound: map<string, seq<InboundRef>>, ghost entries: seq<Inbound.Target>)
      returns (inbound': map<string, seq<InboundRef>>, ghost entries': seq<Inbound.Target>)
      requires inbound == InboundMap(entries)
      ensures entries' == entries + Inbound.RefsEntries(src, ptr, ptr.outboundRefs, lookup)
      ensures inbound' == InboundMap(entries')
    {
      inbound', entries' := inbound, entries;
      var refs := ptr.outboundRefs;
      var k := 0;
      while k < |refs|
        invariant 0 <= k <= |refs|
        invariant entries' == entries + Inbound.RefsEntries(src, ptr, refs[..k], lookup)
        invariant inbound' == InboundMap(entries')
      {
        var ref := refs[k];
        var n := SheetRefs.NormalizeSheetRef(ref.ref);
        RefsEntriesStep(src, ptr, refs, k, lookup);
        if n != "" && n in lookup {
          AppendAssoc(entries, Inbound.RefsEntries(src, ptr, refs[..k], lookup),
                      [(lookup[n], Inbound.EntryFor(src, ptr, ref))]);
          var target := lookup[n];
          var e := Inbound.EntryFor(src, ptr, ref);
          InboundMapSnoc(entries', (target, e));
          inbound' := inbound'[target := Get(inbound', target) + [e]];
          entries' := entries' + [(target, e)];
        }
        k := k + 1;
      }
      assert refs[..k] == refs;
    }

    /** The references of every pointer of one page. */
    static method FilePointers(src: Page, lookup: map<string, string>,
                               inbound: map<string, seq<InboundRef>>, ghost entries: seq<Inbound.Target>)
      returns (inbound': map<string, seq<InboundRef>>, ghost entries': seq<Inbound.Target>)
      requires inbound == InboundMap(entries)
      ensures entries' == entries + Inbound.PointersEntries(src, Inbound.Pointers(src), lookup)
      ensures inbound' == InboundMap(entries')
    {
      inbound', entries' := inbound, entries;
      var ptrs := Inbound.Pointers(src);
      var j := 0;
      while j < |ptrs|
        invariant 0 <= j <= |ptrs|
        invariant entries' == entries + Inbound.PointersEntries(src, ptrs[..j], lookup)
        invariant inbound' == InboundMap(entries')
      {
        PointersEntriesStep(src, ptrs, j, lookup);
        AppendAssoc(entries, Inbound.PointersEntries(src, ptrs[..j], lookup),
                    Inbound.RefsEntries(src, ptrs[j], ptrs[j].outboundRefs, lookup));
        inbound', entries' := FileRefs(src, ptrs[j], lookup, inbound', entries');
        j := j + 1;
      }
      assert ptrs[..j] == ptrs;
    }

    /** The inbound map of the source pages: every resolved reference, filed under its target sheet. */
    static method BuildInboundMap(sources: seq<Page>, lookup: map<string, string>) returns (inbound: map<string, seq<InboundRef>>)
      ensures forall t :: Get(inbound, t) == Inbound.InboundOf(Inbound.PagesEntries(sources, lookup), t)
    {
      inbound := map[];
      ghost var entries: seq<Inbound.Target> := [];
      var i := 0;
      while i < |sources|
        invariant 0 <= i <= |sources|
        invariant entries == Inbound.PagesEntries(sources[..i], lookup)
        invariant inbound == InboundMap(entries)
      {
        PagesEntriesStep(sources, i, lookup);
        inbound, entries := FilePointers(sources[i], lookup, inbound, entries);
        i := i + 1;
      }
      assert sources[..i] == sources;
      forall t ensures Get(inbound, t) == Inbound.InboundOf(Inbound.PagesEntries(sources, lookup), t) {
        InboundMapFiles(entries, t);
      }
    }

    /** `compute_inbound_references`: each `pass1_complete` page of the project gets the references aimed at its sheet. */
    method ComputeInboundReferences()
      modifies this
      ensures Snapshot() == old(Snapshot()).(pages := Inbound.ComputedInbound(old(pages), env.files))
    {
      var sources := Inbound.Sources(pages, env.files);
      if |sources| == 0 {
        assert forall i :: 0 <= i < |pages| ==> !Inbound.IsSource(pages[i], env.files) by {
          forall i | 0 <= i < |pages| ensures !Inbound.IsSource(pages[i], env.files) {
            assert pages[i] in pages;
          }
        }
        assert Inbound.ComputedInbound(pages, env.files) == pages;
        return;
      }
      var lookup := BuildPageLookup(sources);
      var inbound := BuildInboundMap(sources, lookup);
      var ps := pages;
      var i := 0;
      while i < |ps|
        invariant 0 <= i <= |ps| == |pages|
        invariant forall j :: 0 <= j < i ==> ps[j] == Inbound.ComputedInbound(pages, env.files)[j]
        invariant forall j :: i <= j < |ps| ==> ps[j] == pages[j]
      {
        if Inbound.IsSource(ps[i], env.files) {
          ps := ps[i := ps[i].(inbound := Get(inbound, ps[i].sheet))];
        }
        i := i + 1;
      }
      assert ps == Inbound.ComputedInbound(pages, env.files);
      pages := ps;
    }

    /** The context lookup of the target pages. */
    static method BuildContextLookup(targets: seq<Page>) returns (lookup: map<Inbound.ContextKey, string>)
      ensures lookup == Inbound.ContextLookup(targets)
    {
      lookup := map[];
      var i := 0;
      while i < |targets|
        invariant 0 <= i <= |targets|
        invariant lookup == Inbound.ContextLookup(targets[..i])
      {
        var p := targets[i];
        var rcs := Inbound.RefContexts(p);
        ghost var base := lookup;
        var k := 0;
        while k < |rcs|
          invariant 0 <= k <= |rcs|
          invariant lookup == Inbound.AddContexts(base, p.sheet, rcs[..k])
        {
          if rcs[k].ref != "" && p.sheet != "" {
            lookup := lookup[(p.sheet, rcs[k].ref) := rcs[k].context];
          }
          assert rcs[..k + 1][..k] == rcs[..k];
          k := k + 1;
        }
        assert rcs[..k] == rcs;
        assert targets[..i + 1][..i] == targets[..i];
        i := i + 1;
      }
      assert targets[..i] == targets;
    }

    /** The inbound entries of one page with their contexts filled in. */
    static method PropagateList(inb: seq<InboundRef>, lookup: map<Inbound.ContextKey, string>) returns (updated: seq<InboundRef>)
      ensures updated == Inbound.PropagateAll(inb, lookup)
    {
      updated := [];
      var k := 0;
      while k < |inb|
        invariant 0 <= k <= |inb| && |updated| == k
        invariant forall m :: 0 <= m < k ==> updated[m] == Inbound.PropagateEntry(inb[m], lookup)
      {
        var e := inb[k];
        var key := (e.sourceSheet, e.originalRef);
        if key in lookup {
          e := e.(context := Some(lookup[key]));
        } else if e.context.None? {
          e := e.(context := Some(""));
        }
        updated := updated + [e];
        k := k + 1;
      }
    }

    /** `propagate_inbound_context`: every inbound entry of a `pass2_complete` page gets the context its source gave. */
    method PropagateInboundContext()
      modifies this
      ensures Snapshot() == old(Snapshot()).(pages := Inbound.Propagated(old(pages), env.files))
    {
      var targets := Inbound.Targets(pages, env.files);
      if |targets| == 0 {
        assert forall i :: 0 <= i < |pages| ==> !Inbound.IsTarget(pages[i], env.files) by {
          forall i | 0 <= i < |pages| ensures !Inbound.IsTarget(pages[i], env.files) {
            assert pages[i] in pages;
          }
        }
        assert Inbound.Propagated(pages, env.files) == pages;
        return;
      }
      var lookup := BuildContextLookup(targets);
      var before := pages;
      ghost var after := Inbound.Propagated(before, env.files);
      var ps := before;
      var i := 0;
      while i < |ps|
        invariant 0 <= i <= |ps| == |before| == |after|
        invariant Snapshot() == old(Snapshot()) && before == pages
        invariant forall j :: 0 <= j < i ==> ps[j] == after[j]
        invariant forall j :: i <= j < |ps| ==> ps[j] == before[j]
      {
        if Inbound.IsTarget(ps[i], env.files) {
          var updated := PropagateList(ps[i].inbound, lookup);
          ps := ps[i := ps[i].(inbound := updated)];
        }
        i := i + 1;
      }
      assert ps == after;
      pages := ps;
    }

    // -------------------------------------------------------------------
    // Building rows
    // -------------------------------------------------------------------

    /** One pointed-at page: create its row, or fill in a missing title and sheet number. */
    static method EnsureRow(files: seq<ProjectFile>, ps: seq<Page>, n: nat, l: PointerLoc) returns (ps': seq<Page>, n': nat)
      ensures (ps', n') == EnsureLoc(files, ps, n, l)
    {
      ps', n' := ps, n;
      match PdfFileOf(files, l.fileId) {
        case None =>
        case Some(f) =>
          match IndexOfKey(ps, l) {
            case None =>
              ps' := ps + [NewPage(ps, l, f.name)];
              n' := n + 1;
            case Some(j) =>
              var existing := ps[j];
              if existing.title == "" {
                existing := existing.(title := SheetRefs.ExtractTitleFromFilename(f.name));
              }
              if existing.sheet == "" {
                existing := existing.(sheet := SheetRefs.ExtractSheetNumberFromFilename(f.name).GetOr(""));
              }
              ps' := ps[j := existing];
          }
      }
    }

    /** The rows after visiting every pointed-at page, and how many were created. */
    static method EnsureRows(files: seq<ProjectFile>, pages: seq<Page>, locs: seq<PointerLoc>) returns (ps: seq<Page>, n: nat)
      ensures (ps, n) == EnsureFold(files, pages, locs)
    {
      ps, n := pages, 0;
      var i := 0;
      while i < |locs|
        invariant 0 <= i <= |locs|
        invariant (ps, n) == EnsureFold(files, pages, locs[..i])
      {
        ps, n := EnsureRow(files, ps, n, locs[i]);
        assert locs[..i + 1][..i] == locs[..i];
        i := i + 1;
      }
      assert locs[..i] == locs;
    }

    /** `ensure_page_contexts_exist`: returns how many rows it created; commits only when it created one. */
    method EnsurePageContextsExist() returns (created: nat)
      modifies this
      ensures Snapshot() == old(Snapshot()).(pages := EnsurePagesSpec(env, old(pages)).0)
      ensures created == EnsurePagesSpec(env, old(pages)).1
    {
      var ps, n := EnsureRows(env.files, pages, PdfLocs(env.files, env.pointers));
      if n > 0 {
        pages := ps;
      }
      created := n;
    }

    /** `ensure_discipline_contexts_exist`: a waiting row for every code without one. */
    method EnsureDisciplineContextsExist(codes: seq<string>)
      modifies this
      ensures Snapshot() == old(Snapshot()).(disciplines := EnsureDisciplines(old(disciplines), codes))
    {
      disciplines := AddMissingDisciplines(disciplines, codes);
    }

    /** The loop of `ensure_discipline_contexts_exist` over the codes. */
    static method AddMissingDisciplines(ds0: seq<Discipline>, codes: seq<string>) returns (ds: seq<Discipline>)
      ensures ds == EnsureDisciplines(ds0, codes)
    {
      ds := ds0;
      for i := 0 to |codes|
        invariant ds == EnsureDisciplines(ds0, codes[..i])
      {
        if IndexOfDiscipline(ds, codes[i]).None? {
          ds := ds + [NewDiscipline(ds, codes[i])];
        }
        assert codes[..i + 1][..i] == codes[..i];
      }
      assert codes[..|codes|] == codes;
    }

    // -------------------------------------------------------------------
    // Pass 1
    // -------------------------------------------------------------------

    /** The legacy identifiers: one per outbound reference, carrying its pointer's summary. */
    static method BuildLegacyIdentifiers(ptrs: seq<PointerAnalysis>) returns (ids: seq<Identifier>)
      ensures ids == LegacyIdentifiers(ptrs)
    {
      ids := [];
      var j := 0;
      while j < |ptrs|
        invariant 0 <= j <= |ptrs|
        invariant ids == LegacyIdentifiers(ptrs[..j])
      {
        var ptr := ptrs[j];
        ghost var base := ids;
        var k := 0;
        while k < |ptr.outboundRefs|
          invariant 0 <= k <= |ptr.outboundRefs|
          invariant ids == base + RefIdentifiers(ptr, ptr.outboundRefs[..k])
        {
          var ref := ptr.outboundRefs[k];
          var id := Identifier(ref.ref, ref.refType.GetOr("detail"), ptr.summary);
          assert ptr.outboundRefs[..k + 1][..k] == ptr.outboundRefs[..k];
          AppendAssoc(base, RefIdentifiers(ptr, ptr.outboundRefs[..k]), [id]);
          ids := ids + [id];
          k := k + 1;
        }
        assert ptr.outboundRefs[..k] == ptr.outboundRefs;
        assert ptrs[..j + 1][..j] == ptrs[..j];
        j := j + 1;
      }
      assert ptrs[..j] == ptrs;
    }

    /** `process_pass1` */
    method ProcessPass1(id: nat) returns (r: Pass1Result)
      modifies this
      ensures (Snapshot(), r) == Pass1Step(env, old(Snapshot()), id)
    {
      var found := IndexOfPage(pages, id);
      if found.None? {
        return Pass1Missing;
      }
      var i := found.value;
      ghost var before := pages;
      var p0 := pages[i];
      pages := pages[i := p0.(status := Pass1Processing)];
      UpdateTwice(before, i, p0.(status := Pass1Processing), FailPage(p0, PromptError));
      if !env.oracle.promptBuilds {
        // the prompt raises before the model is called
        pages := pages[i := FailPage(p0, PromptError)];
        return Pass1Raised(PromptError);
      }
      var reply := env.oracle.pass1(calls);
      calls := calls + 1;
      match reply {
        case Failure(m) =>
          pages := pages[i := FailPage(p0, "Pass 1 Gemini error: " + m)];
          // the outer handler overwrites the message with the exception's own
          pages := pages[i := FailPage(p0, m)];
          UpdateTwice(before[i := p0.(status := Pass1Processing)], i, FailPage(p0, "Pass 1 Gemini error: " + m), FailPage(p0, m));
          UpdateTwice(before, i, p0.(status := Pass1Processing), FailPage(p0, m));
          r := Pass1Raised(m);
        case Success(out) =>
          var page := p0;
          var discipline := ValidDiscipline(out.discipline);
          var identifiers := BuildLegacyIdentifiers(out.pointers);
          page := page.(disciplineCode := discipline, contextDescription := out.summary,
                        identifiers := identifiers, pass1 := Some(out));
          if out.sheetNumber != "" {
            page := page.(sheet := out.sheetNumber);
          } else {
            var file := FileOf(env.files, page.fileId);
            if file.Some? {
              var m := SheetRefs.SheetPrefix(file.value.name, false);
              if m.Some? {
                page := page.(sheet := m.value);
              }
            }
          }
          page := page.(status := Pass1Complete, error := None);
          assert page == CompletePass1(p0, out, env.files);
          UpdateTwice(before, i, p0.(status := Pass1Processing), page);
          pages := pages[i := page];
          r := Pass1Done(discipline);
      }
    }

    /** One page of `run_pass1`: pass 1 of the page, counted and announced. */
    method VisitPass1(p: Page, total: nat, completed: nat, errors: nat, discovered: seq<string>)
      returns (completed': nat, errors': nat, discovered': seq<string>)
      modifies this
      ensures Pass1Acc(Snapshot(), completed', errors', discovered')
        == Pass1Visit(env, Pass1Acc(old(Snapshot()), completed, errors, discovered), p, total)
    {
      var res := ProcessPass1(p.id);
      completed', errors', discovered' := completed, errors, discovered;
      match res {
        case Pass1Missing =>
          completed' := completed + 1;
          Emit(PagePass1Complete(p.id, p.sheet, None, completed', total));
        case Pass1Done(d) =>
          if d !in discovered {
            discovered' := discovered + [d];
          }
          completed' := completed + 1;
          Emit(PagePass1Complete(p.id, p.sheet, Some(d), completed', total));
        case Pass1Raised(m) =>
          errors' := errors + 1;
          Emit(PageError(p.id, 1, m));
      }
    }

    /** The loop of `run_pass1` over the selected pages. */
    method Pass1Loop(sel: seq<Page>, total: nat) returns (completed: nat, errors: nat, discovered: seq<string>)
      modifies this
      ensures Pass1Acc(Snapshot(), completed, errors, discovered) == Pass1Fold(env, Pass1Acc(old(Snapshot()), 0, 0, []), sel, total)
    {
      ghost var s0 := Snapshot();
      completed, errors, discovered := 0, 0, [];
      for i := 0 to |sel|
        invariant Pass1Acc(Snapshot(), completed, errors, discovered) == Pass1Fold(env, Pass1Acc(s0, 0, 0, []), sel[..i], total)
      {
        completed, errors, discovered := VisitPass1(sel[i], total, completed, errors, discovered);
        assert sel[..i + 1][..i] == sel[..i];
      }
      assert sel[..|sel|] == sel;
    }

    /** `run_pass1`: pass 1 over the selected pages, then discipline rows for the codes found. */
    method RunPass1() returns (t: Tally)
      modifies this
      ensures (Snapshot(), t) == RunPass1Spec(env, old(Snapshot()))
    {
      var sel := PagesForProcessing(pages, env.files, env.pointers);
      var total := |sel|;
      if total == 0 {
        return Tally(0, 0);
      }
      var completed, errors, discovered := Pass1Loop(sel, total);
      if discovered != [] {
        EnsureDisciplineContextsExist(discovered);
      }
      Emit(Pass1Finished(completed, errors, discovered));
      t := Tally(completed, errors);
    }

    // -------------------------------------------------------------------
    // Pass 2
    // -------------------------------------------------------------------

    /** The legacy cross-references and the context additions of a pass-2 reply. */
    static method BuildCrossRefs(rcs: seq<RefContext>) returns (crossRefs: seq<CrossRef>, additions: seq<string>)
      ensures crossRefs == CrossRefs(rcs)
      ensures additions == ContextAdditions(rcs)
    {
      crossRefs, additions := [], [];
      var k := 0;
      while k < |rcs|
        invariant 0 <= k <= |rcs| && |crossRefs| == k
        invariant forall m :: 0 <= m < k ==> crossRefs[m] == CrossRef(rcs[m].ref, rcs[m].context)
        invariant additions == ContextAdditions(rcs[..k])
      {
        crossRefs := crossRefs + [CrossRef(rcs[k].ref, rcs[k].context)];
        if rcs[k].ref != "" && rcs[k].context != "" {
          additions := additions + ["Reference to " + rcs[k].ref + ": " + rcs[k].context];
        }
        assert rcs[..k + 1][..k] == rcs[..k];
        k := k + 1;
      }
      assert rcs[..k] == rcs;
    }

    /** `on_discipline_ready`: queue the pair once. */
    method OnDisciplineReady(code: string, projectId: nat)
      modifies this
      ensures Snapshot() == old(Snapshot()).(ready := Enqueue(old(ready), QueueEntry(code, projectId)))
    {
      if QueueEntry(code, projectId) !in ready {
        ready := ready + [QueueEntry(code, projectId)];
      }
    }

    /** `check_discipline_ready` */
    method CheckDisciplineReady(code: string) returns (fired: bool)
      modifies this
      ensures (Snapshot(), fired) == CheckReady(env, old(Snapshot()), code)
    {
      var total := CodePages(pages, env.files, code);
      var complete := CodePagesComplete(pages, env.files, code);
      if total > 0 && total == complete {
        var k := IndexOfDiscipline(disciplines, code);
        if k.Some? && disciplines[k.value].status == Waiting {
          disciplines := disciplines[k.value := disciplines[k.value].(status := Ready)];
          Emit(DisciplineReady(code, SheetRefs.DisciplineName(code)));
          OnDisciplineReady(code, env.projectId);
          return true;
        }
      }
      return false;
    }

    /** `process_pass2` */
    method ProcessPass2(id: nat) returns (r: Pass2Result)
      modifies this
      ensures (Snapshot(), r) == Pass2Step(env, old(Snapshot()), id)
    {
      var found := IndexOfPage(pages, id);
      if found.None? {
        return Pass2Missing;
      }
      var i := found.value;
      ghost var before := pages;
      var p0 := pages[i];
      pages := pages[i := p0.(status := Pass2Processing)];
      var reply := env.oracle.pass2(calls);
      calls := calls + 1;
      match reply {
        case Failure(m) =>
          pages := pages[i := FailPage(p0, "Pass 2 Gemini error: " + m)];
          pages := pages[i := FailPage(p0, m)];
          UpdateTwice(before[i := p0.(status := Pass2Processing)], i, FailPage(p0, "Pass 2 Gemini error: " + m), FailPage(p0, m));
          UpdateTwice(before, i, p0.(status := Pass2Processing), FailPage(p0, m));
          r := Pass2Raised(m);
        case Success(out) =>
          var page := p0;
          var crossRefs, additions := BuildCrossRefs(out.refContexts);
          var updated := page.contextDescription;
          if additions != [] {
            updated := updated + " Cross-references: " + Text.Join(additions, "; ");
          }
          page := page.(pass2 := Some(out), crossRefs := crossRefs, updatedContext := updated,
                        status := Pass2Complete, error := None);
          assert page == CompletePass2(p0, out);
          UpdateTwice(before, i, p0.(status := Pass2Processing), page);
          pages := pages[i := page];
          if page.disciplineCode != "" {
            var _ := CheckDisciplineReady(page.disciplineCode);
          }
          r := Pass2Done;
      }
    }

    /** One page of `run_pass2`; a page that is no longer there counts as completed. */
    method VisitPass2(p: Page, total: nat, completed: nat, errors: nat)
      returns (completed': nat, errors': nat)
      modifies this
      ensures Pass2Acc(Snapshot(), completed', errors') == Pass2Visit(env, Pass2Acc(old(Snapshot()), completed, errors), p, total)
    {
      var res := ProcessPass2(p.id);
      completed', errors' := completed, errors;
      if res.Pass2Raised? {
        errors' := errors + 1;
        Emit(PageError(p.id, 2, res.message));
      } else {
        completed' := completed + 1;
        Emit(PagePass2Complete(p.id, p.sheet, completed', total));
      }
    }

    /** The loop of `run_pass2` over the selected pages. */
    method Pass2Loop(sel: seq<Page>, total: nat) returns (completed: nat, errors: nat)
      modifies this
      ensures Pass2Acc(Snapshot(), completed, errors) == Pass2Fold(env, Pass2Acc(old(Snapshot()), 0, 0), sel, total)
    {
      ghost var s0 := Snapshot();
      completed, errors := 0, 0;
      for i := 0 to |sel|
        invariant Pass2Acc(Snapshot(), completed, errors) == Pass2Fold(env, Pass2Acc(s0, 0, 0), sel[..i], total)
      {
        completed, errors := VisitPass2(sel[i], total, completed, errors);
        assert sel[..i + 1][..i] == sel[..i];
      }
      assert sel[..|sel|] == sel;
    }

    /** `run_pass2`: pass 2 over the selected pages in order. */
    method RunPass2() returns (t: Tally)
      modifies this
      ensures (Snapshot(), t) == RunPass2Spec(env, old(Snapshot()))
    {
      var sel := PagesForPass2(pages, env.files, env.pointers);
      var totalPages := TotalPageCount(pages, env.files);
      if |sel| == 0 {
        return Tally(0, 0);
      }
      var completed, errors := Pass2Loop(sel, totalPages);
      Emit(Pass2Finished(completed, errors));
      t := Tally(completed, errors);
    }

    // -------------------------------------------------------------------
    // The sweep and the whole run
    // -------------------------------------------------------------------

    /** The orphans out of retries, and how many can still be retried. */
    static method TallyOrphans(orphans: seq<Page>) returns (failed: seq<FailedPage>, retryable: nat)
      ensures failed == FailedPages(orphans) && retryable == RetryableCount(orphans)
    {
      failed, retryable := [], 0;
      var j := 0;
      while j < |orphans|
        invariant 0 <= j <= |orphans|
        invariant failed == FailedPages(orphans[..j]) && retryable == RetryableCount(orphans[..j])
      {
        var p := orphans[j];
        if p.retryCount < MaxPageRetries {
          retryable := retryable + 1;
        } else {
          failed := failed + [FailedPage(p.id, SheetLabel(p))];
        }
        assert orphans[..j + 1][..j] == orphans[..j];
        j := j + 1;
      }
      assert orphans[..j] == orphans;
    }

    /** Every retryable orphan back to unprocessed, with one more retry and no error. */
    static method ResetOrphans(pages: seq<Page>, files: seq<ProjectFile>) returns (ps: seq<Page>)
      ensures ps == SweptPages(pages, files)
    {
      ps := pages;
      var i := 0;
      while i < |ps|
        invariant 0 <= i <= |ps| == |pages|
        invariant forall k :: 0 <= k < i ==> ps[k] == SweptPages(pages, files)[k]
        invariant forall k :: i <= k < |ps| ==> ps[k] == pages[k]
      {
        if Retryable(ps[i], files) {
          ps := ps[i := ResetForRetry(ps[i])];
        }
        i := i + 1;
      }
    }

    /** `_sweep_and_retry_orphans` */
    method SweepAndRetryOrphans() returns (res: SweepResult)
      modifies this
      ensures (Snapshot(), res) == SweepSpec(env, old(Snapshot()))
    {
      var orphans := Orphans(pages, env.files);
      if orphans == [] {
        return SweepResult(0, []);
      }
      var failed, retryable := TallyOrphans(orphans);
      if failed != [] {
        Emit(OrphansDetected(failed));
      }
      pages := ResetOrphans(pages, env.files);
      res := SweepResult(retryable, failed);
    }

    /** One round of the retry loop: pass 1, pass 2 and a sweep. */
    method RetryRound(t1: Tally, t2: Tally) returns (t1': Tally, t2': Tally, sw: SweepResult)
      modifies this
      ensures (Snapshot(), t1', t2', sw) == RetryRoundSpec(env, old(Snapshot()), t1, t2)
    {
      var a := RunPass1();
      t1' := AddTally(t1, a);
      var b := RunPass2();
      t2' := AddTally(t2, b);
      sw := SweepAndRetryOrphans();
    }

    /** Page rows, pass 1, the reference inversion, pass 2 and propagation. */
    method RunPasses() returns (t1: Tally, t2: Tally)
      modifies this
      ensures (Snapshot(), t1, t2) == PassesSpec(env, old(Snapshot()))
    {
      var _ := EnsurePageContextsExist();
      var total1 := |PagesForProcessing(pages, env.files, env.pointers)|;
      Emit(ProcessingStarted(total1));
      t1 := Tally(0, 0);
      if total1 > 0 {
        t1 := RunPass1();
      }
      ComputeInboundReferences();
      var total2 := |PagesForPass2(pages, env.files, env.pointers)|;
      t2 := Tally(0, 0);
      if total2 > 0 {
        t2 := RunPass2();
      }
      PropagateInboundContext();
    }

    /** A sweep, then retry rounds until a sweep resets nothing. */
    method Settle(t1: Tally, t2: Tally) returns (t1': Tally, t2': Tally, sw: SweepResult)
      modifies this
      ensures (Snapshot(), t1', t2', sw) == SettleSpec(env, old(Snapshot()), t1, t2)
    {
      ghost var s := Snapshot();
      t1', t2' := t1, t2;
      sw := SweepAndRetryOrphans();
      SweepSpecFacts(env, s);
      ghost var goal := SettleSpec(env, s, t1, t2);
      while sw.retried > 0
        invariant sw.retried > 0 ==> RetryLoop(env, Snapshot(), t1', t2') == goal
        invariant sw.retried == 0 ==> (Snapshot(), t1', t2', sw) == goal
        decreases Budget(pages) + (if sw.retried > 0 then 1 else 0)
      {
        t1', t2', sw := RetryRound(t1', t2');
      }
    }

    /** `start_processing`: ends with no page left to retry. */
    method StartProcessing() returns (summary: Summary)
      modifies this
      ensures (Snapshot(), summary) == StartSpec(env, old(Snapshot()))
      ensures forall p :: p in pages ==> !Retryable(p, env.files)
    {
      var t1, t2 := RunPasses();
      var u1, u2, sw := Settle(t1, t2);
      summary := Summary(u1.completed, u1.errors, u2.completed, u2.errors, sw.failed);
      Emit(ProcessingComplete(summary));
    }

    // -------------------------------------------------------------------
    // Pass 3
    // -------------------------------------------------------------------

    /** `run_pass3` */
    method RunPass3(e: QueueEntry) returns (ok: bool)
      modifies this
      ensures (Snapshot(), ok) == Pass3Step(env, old(Snapshot()), e)
    {
      if e.projectId != env.projectId {
        return false;
      }
      var found := IndexOfDiscipline(disciplines, e.code);
      if found.None? {
        return false;
      }
      var k := found.value;
      ghost var before := disciplines;
      var d := disciplines[k];
      disciplines := disciplines[k := d.(status := Processing)];
      var reply := env.oracle.pass3(calls);
      calls := calls + 1;
      match reply {
        case Failure(_) =>
          disciplines := disciplines[k := d.(status := Failed)];
          UpdateTwice(before, k, d.(status := Processing), d.(status := Failed));
          ok := false;
        case Success(out) =>
          var linked := CodePagesComplete(pages, env.files, e.code);
          var done := d.(context := out.context, keyContents := out.keyContents, connections := out.connections, status := Complete);
          disciplines := disciplines[k := done];
          UpdateTwice(before, k, d.(status := Processing), done);
          pages := LinkDisciplinePages(pages, env.files, e.code, d.id);
          Emit(DisciplineComplete(e.code, d.name, linked, |out.keyContents|));
          ok := true;
      }
    }

    /** Pass 3 of one more pair, counted as a success or a failure. */
    method VisitPass3(ghost s0: State, ghost done: seq<QueueEntry>, e: QueueEntry, completed: nat, errors: nat)
      returns (completed': nat, errors': nat)
      modifies this
      requires (Snapshot(), Tally(completed, errors)) == Pass3Fold(env, s0, done)
      ensures (Snapshot(), Tally(completed', errors')) == Pass3Fold(env, s0, done + [e])
    {
      assert (done + [e])[..|done|] == done;
      var ok := RunPass3(e);
      if ok {
        completed', errors' := completed + 1, errors;
      } else {
        completed', errors' := completed, errors + 1;
      }
    }

    /** Pops the front of the queue and runs pass 3 on it. */
    method PopAndRun(ghost s0: State, ghost q: seq<QueueEntry>, ghost i: nat, completed: nat, errors: nat)
      returns (completed': nat, errors': nat)
      modifies this
      requires i < |q| && ready == q[i..]
      requires (Snapshot(), Tally(completed, errors)) == (Pass3Fold(env, s0, q[..i]).0.(ready := q[i..]), Pass3Fold(env, s0, q[..i]).1)
      ensures ready == q[i + 1..]
      ensures (Snapshot(), Tally(completed', errors')) == (Pass3Fold(env, s0, q[..i + 1]).0.(ready := q[i + 1..]), Pass3Fold(env, s0, q[..i + 1]).1)
    {
      var e := ready[0];
      ready := ready[1..];
      ghost var mid := Pass3Fold(env, s0, q[..i]).0;
      assert e == q[i] && ready == q[i + 1..];
      assert Snapshot() == mid.(ready := q[i + 1..]);
      Pass3StepIgnoresQueue(env, mid, e, q[i + 1..]);
      Pass3FoldNext(env, s0, q, i);
      var ok := RunPass3(e);
      ghost var next := Pass3Fold(env, s0, q[..i + 1]);
      assert Snapshot() == next.0.(ready := q[i + 1..]);
      assert ok == Pass3Step(env, mid, e).1;
      if ok {
        completed', errors' := completed + 1, errors;
      } else {
        completed', errors' := completed, errors + 1;
      }
      assert Tally(completed', errors') == next.1;
    }

    /** `process_queue`: pop the queue front to back and run pass 3 on each pair. */
    method ProcessQueue() returns (t: Tally)
      modifies this
      ensures (Snapshot(), t) == ProcessQueueSpec(env, old(Snapshot()))
    {
      ghost var s0 := Snapshot();
      ghost var q := ready;
      var completed, errors := 0, 0;
      ghost var i := 0;
      while |ready| > 0
        invariant 0 <= i <= |q| && ready == q[i..]
        invariant (Snapshot(), Tally(completed, errors)) == (Pass3Fold(env, s0, q[..i]).0.(ready := q[i..]), Pass3Fold(env, s0, q[..i]).1)
        decreases |ready|
      {
        completed, errors := PopAndRun(s0, q, i, completed, errors);
        i := i + 1;
      }
      assert q[..i] == q;
      t := Tally(completed, errors);
    }

    /** Pass 3 of the given pairs in order. */
    method RunAll(codes: seq<QueueEntry>) returns (t: Tally)
      modifies this
      ensures (Snapshot(), t) == Pass3Fold(env, old(Snapshot()), codes)
    {
      ghost var s0 := Snapshot();
      var completed, errors := 0, 0;
      var i := 0;
      while i < |codes|
        invariant 0 <= i <= |codes|
        invariant (Snapshot(), Tally(completed, errors)) == Pass3Fold(env, s0, codes[..i])
      {
        completed, errors := VisitPass3(s0, codes[..i], codes[i], completed, errors);
        assert codes[..i + 1] == codes[..i] + [codes[i]];
        i := i + 1;
      }
      assert codes[..i] == codes;
      t := Tally(completed, errors);
    }

    /** `process_all_ready`: the queue, then every discipline still marked ready. */
    method ProcessAllReady() returns (t: Tally)
      modifies this
      ensures (Snapshot(), t) == ProcessAllReadySpec(env, old(Snapshot()))
    {
      var t1 := ProcessQueue();
      var t2 := RunAll(ReadyCodes(disciplines, env.projectId));
      t := AddTally(t1, t2);
    }

    /** `process_project_context_tree`: a fresh queue, page processing, then pass 3. */
    method ProcessProjectContextTree() returns (t: ProjectTally)
      modifies this
      ensures (Snapshot(), t) == ProcessProjectSpec(env, old(Snapshot()))
    {
      ready := [];
      var summary := StartProcessing();
      var t3 := ProcessAllReady();
      t := ProjectTally(summary.pass1Completed, summary.pass1Errors, summary.pass2Completed, summary.pass2Errors,
                        t3.completed, t3.errors);
    }
  }
}
