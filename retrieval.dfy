/**
 * The ViewM4D retrieval service: a project's results file flattened into
 * one list of pointers, the keyword search used when the language model is
 * unavailable, the handling of the model's list of matches, and the
 * search endpoint that keeps only matches with a bounding box.
 *
 * The results file is given already parsed; the model's reply to the
 * search prompt is a parameter (the prompt text itself is not modelled),
 * and so is the JSON parser.
 */
module Retrieval {
  import opened Wrappers
  import opened Text
  import opened JsonValue
  import Sorting
  import JsonText

  /** A pointer as stored in a sheet of `results.json`, with the `.get` defaults applied. */
  datatype SheetPointer = SheetPointer(
    id: string,
    title: string,
    description: string,
    boundingBox: Json,
    technicalDescription: string,
    tradeCategory: string,
    transcribedText: seq<string>,
    identifiedElements: seq<Json>)

  datatype Sheet = Sheet(sheetId: string, fileName: string, pointers: seq<SheetPointer>)

  /** A parsed `results.json`. */
  datatype ProjectData = ProjectData(batchId: Json, processedAt: Json, sheets: seq<Sheet>)

  /** A flattened pointer, carrying its sheet's id and file name. */
  datatype Pointer = Pointer(
    pointerId: string,
    sheetId: string,
    fileName: string,
    title: string,
    description: string,
    boundingBox: Json,
    technicalDescription: string,
    tradeCategory: string,
    transcribedText: seq<string>,
    identifiedElements: seq<Json>)

  /** A pointer picked by a search, with the reason given for it. */
  datatype Match = Match(p: Pointer, reason: Json)

  function Flat(s: Sheet, p: SheetPointer): Pointer {
    Pointer(p.id, s.sheetId, s.fileName, p.title, p.description, p.boundingBox,
            p.technicalDescription, p.tradeCategory, p.transcribedText, p.identifiedElements)
  }

  /** The flattened pointers of one sheet. */
  function SheetFlat(s: Sheet): (r: seq<Pointer>)
    ensures |r| == |s.pointers|
    ensures forall j :: 0 <= j < |r| ==> r[j] == Flat(s, s.pointers[j])
  {
    seq(|s.pointers|, j requires 0 <= j < |s.pointers| => Flat(s, s.pointers[j]))
  }

  /** Every sheet's pointers, sheet after sheet. */
  function Flatten(sheets: seq<Sheet>): seq<Pointer> {
    if sheets == [] then []
    else Flatten(sheets[..|sheets| - 1]) + SheetFlat(sheets[|sheets| - 1])
  }

  /** Flattening distributes over concatenation of sheet lists. */
  lemma {:induction false} FlattenAppend(a: seq<Sheet>, b: seq<Sheet>)
    ensures Flatten(a + b) == Flatten(a) + Flatten(b)
    decreases |b|
  {
    if b == [] {
      assert a + b == a;
    } else {
      var b', last := b[..|b| - 1], b[|b| - 1];
      assert (a + b)[..|a + b| - 1] == a + b';
      assert (a + b)[|a + b| - 1] == last;
      assert Flatten(a + b) == Flatten(a + b') + SheetFlat(last);
      assert Flatten(b) == Flatten(b') + SheetFlat(last);
      FlattenAppend(a, b');
      assert Flatten(a + b) == (Flatten(a) + Flatten(b')) + SheetFlat(last);
    }
  }

  /**
   * Order of the flattened list: pointer `j` of sheet `i` sits right after
   * the pointers of the sheets before `i` and the first `j` of its own.
   */
  lemma FlattenAt(sheets: seq<Sheet>, i: nat, j: nat)
    requires i < |sheets| && j < |sheets[i].pointers|
    ensures |Flatten(sheets[..i])| + j < |Flatten(sheets)|
    ensures Flatten(sheets)[|Flatten(sheets[..i])| + j] == Flat(sheets[i], sheets[i].pointers[j])
  {
    assert sheets == sheets[..i] + [sheets[i]] + sheets[i + 1..];
    FlattenAppend(sheets[..i] + [sheets[i]], sheets[i + 1..]);
    FlattenAppend(sheets[..i], [sheets[i]]);
    assert [sheets[i]][..0] == [];
  }

  /** `get_all_pointers`: sheets in order, and each sheet's pointers in order. */
  method GetAllPointers(data: ProjectData) returns (pointers: seq<Pointer>)
    ensures pointers == Flatten(data.sheets)
  {
    pointers := [];
    var sheets := data.sheets;
    for i := 0 to |sheets|
      invariant pointers == Flatten(sheets[..i])
    {
      pointers := AppendSheet(pointers, sheets[i]);
      assert sheets[..i + 1][..i] == sheets[..i];
    }
    assert sheets[..|sheets|] == sheets;
  }

  /** The inner loop of `get_all_pointers`: one sheet's pointers appended to the list. */
  method AppendSheet(acc: seq<Pointer>, s: Sheet) returns (r: seq<Pointer>)
    ensures r == acc + SheetFlat(s)
  {
    r := acc;
    for j := 0 to |s.pointers|
      invariant r == acc + SheetFlat(s)[..j]
    {
      r := r + [Flat(s, s.pointers[j])];
      assert SheetFlat(s)[..j + 1] == SheetFlat(s)[..j] + [SheetFlat(s)[j]];
    }
    assert SheetFlat(s)[..|s.pointers|] == SheetFlat(s);
  }

  /** A sheet entry of `get_project`. */
  datatype SheetSummary = SheetSummary(sheetId: string, fileName: string, pointerCount: nat)

  datatype ProjectInfo = ProjectInfo(
    projectId: string,
    batchId: Json,
    processedAt: Json,
    sheets: seq<SheetSummary>,
    totalPointers: nat)

  function Summary(s: Sheet): SheetSummary {
    SheetSummary(s.sheetId, s.fileName, |s.pointers|)
  }

  function Summaries(sheets: seq<Sheet>): (r: seq<SheetSummary>)
    ensures |r| == |sheets|
    ensures forall i :: 0 <= i < |sheets| ==> r[i] == Summary(sheets[i])
  {
    seq(|sheets|, i requires 0 <= i < |sheets| => Summary(sheets[i]))
  }

  /** `sum(s["pointer_count"] for s in sheets)` */
  function TotalPointers(summaries: seq<SheetSummary>): nat {
    if summaries == [] then 0
    else TotalPointers(summaries[..|summaries| - 1]) + summaries[|summaries| - 1].pointerCount
  }

  /** The flattened list has exactly as many pointers as `get_project` reports in total. */
  lemma {:induction false} FlattenCount(sheets: seq<Sheet>)
    ensures |Flatten(sheets)| == TotalPointers(Summaries(sheets))
    decreases |sheets|
  {
    if sheets != [] {
      var prefix := sheets[..|sheets| - 1];
      assert Summaries(sheets)[..|sheets| - 1] == Summaries(prefix);
      FlattenCount(prefix);
    }
  }

  /** `get_project`: a missing project is a 404, otherwise its sheet list and pointer total. */
  method GetProject(projectId: string, data: Option<ProjectData>) returns (r: Result<ProjectInfo, nat>)
    ensures data.None? ==> r == Failure(404)
    ensures data.Some? ==> r.Success? && r.value.sheets == Summaries(data.value.sheets)
    ensures data.Some? ==> r.value.totalPointers == |Flatten(data.value.sheets)|
    ensures data.Some? ==>
      r.value.projectId == projectId && r.value.batchId == data.value.batchId && r.value.processedAt == data.value.processedAt
  {
    if data.None? {
      return Failure(404);
    }
    var d := data.value;
    var sheets: seq<SheetSummary> := [];
    for i := 0 to |d.sheets|
      invariant sheets == Summaries(d.sheets[..i])
    {
      sheets := sheets + [Summary(d.sheets[i])];
    }
    assert d.sheets[..|d.sheets|] == d.sheets;
    FlattenCount(d.sheets);
    r := Success(ProjectInfo(projectId, d.batchId, d.processedAt, sheets, TotalPointers(sheets)));
  }

  /** `s[:n]` for any integer `n`: a negative `n` drops that many items from the end. */
  function PrefixOf<T>(s: seq<T>, n: int): (r: seq<T>)
    ensures |r| <= |s| && r == s[..|r|]
    ensures n >= 0 ==> |r| == if n < |s| then n else |s|
    ensures n < 0 ==> |r| == if |s| + n > 0 then |s| + n else 0
  {
    if n >= |s| then s
    else if n >= 0 then s[..n]
    else if |s| + n > 0 then s[..|s| + n]
    else []
  }

  /** The lower-cased text a keyword search looks in. */
  function Searchable(p: Pointer): string {
    Lower(p.title + " " + p.technicalDescription + " " + p.tradeCategory + " " + Join(p.transcribedText, " "))
  }

  /** The distinct lower-cased words of the query that occur in the pointer's text. */
  function HitWords(query: string, p: Pointer): set<string> {
    set w | w in Words(Lower(query)) && Contains(Searchable(p), w)
  }

  /** The keyword score: how many distinct query words the pointer's text contains. */
  function Score(query: string, p: Pointer): nat {
    |HitWords(query, p)|
  }

  /** The query's scoring function. */
  function Scorer(query: string): Pointer -> nat {
    p => Score(query, p)
  }

  datatype Scored = Scored(score: nat, p: Pointer)

  /** The pointers that score above zero, in input order, with their scores. */
  function ScoredPointers(ps: seq<Pointer>, score: Pointer -> nat): (r: seq<Scored>)
    ensures |r| <= |ps|
  {
    if ps == [] then []
    else
      var p := ps[|ps| - 1];
      ScoredPointers(ps[..|ps| - 1], score) + (if score(p) > 0 then [Scored(score(p), p)] else [])
  }

  /** The sort key with `reverse=True`: higher scores first. */
  predicate ScoreFirst(a: Scored, b: Scored) {
    a.score >= b.score
  }

  lemma ScoreFirstPreorder()
    ensures Sorting.Preorder(ScoreFirst)
  {
  }

  /** `scored.sort(key=lambda x: x[0], reverse=True)`: a stable sort, highest score first. */
  function Ranked(ps: seq<Pointer>, score: Pointer -> nat): (r: seq<Scored>)
    ensures |r| == |ScoredPointers(ps, score)|
    ensures multiset(r) == multiset(ScoredPointers(ps, score))
    ensures Sorting.SortedBy(r, ScoreFirst)
  {
    ScoreFirstPreorder();
    Sorting.SortBy(ScoredPointers(ps, score), ScoreFirst)
  }

  function Tagged(s: seq<Scored>): (r: seq<Match>)
    ensures |r| == |s|
    ensures forall k :: 0 <= k < |s| ==> r[k] == Match(s[k].p, JStr("Keyword match"))
  {
    seq(|s|, k requires 0 <= k < |s| => Match(s[k].p, JStr("Keyword match")))
  }

  /** What `keyword_fallback_search` returns. */
  function KeywordResults(query: string, ps: seq<Pointer>, maxResults: int): seq<Match> {
    Tagged(PrefixOf(Ranked(ps, Scorer(query)), maxResults))
  }

  /** Every scored entry carries its pointer's score, which is positive, and the pointer is one of the inputs. */
  lemma {:induction false} ScoredFacts(ps: seq<Pointer>, score: Pointer -> nat)
    ensures forall k :: 0 <= k < |ScoredPointers(ps, score)| ==>
      var e := ScoredPointers(ps, score)[k];
      e.score == score(e.p) > 0 && e.p in ps
    decreases |ps|
  {
    if ps != [] {
      var prefix := ps[..|ps| - 1];
      ScoredFacts(prefix, score);
      assert forall p :: p in prefix ==> p in ps;
    }
  }

  /** The pointers of a list of scored entries. */
  function PointersOf(s: seq<Scored>): (r: seq<Pointer>)
    ensures |r| == |s| && forall k :: 0 <= k < |s| ==> r[k] == s[k].p
  {
    seq(|s|, k requires 0 <= k < |s| => s[k].p)
  }

  /** A pointer is scored exactly when its score is positive. */
  lemma {:induction false} ScoredComplete(ps: seq<Pointer>, score: Pointer -> nat, p: Pointer)
    ensures p in PointersOf(ScoredPointers(ps, score)) <==> p in ps && score(p) > 0
    decreases |ps|
  {
    if ps != [] {
      var prefix := ps[..|ps| - 1];
      var last := ps[|ps| - 1];
      ScoredComplete(prefix, score, p);
      assert ps == prefix + [last];
      var extra := if score(last) > 0 then [Scored(score(last), last)] else [];
      assert ScoredPointers(ps, score) == ScoredPointers(prefix, score) + extra;
      assert PointersOf(ScoredPointers(ps, score)) == PointersOf(ScoredPointers(prefix, score)) + PointersOf(extra);
    }
  }

  /** Reordering keeps the same pointers. */
  lemma PermutedPointers(a: seq<Scored>, b: seq<Scored>, p: Pointer)
    requires multiset(a) == multiset(b)
    ensures p in PointersOf(a) <==> p in PointersOf(b)
  {
    if p in PointersOf(a) {
      var k :| 0 <= k < |a| && PointersOf(a)[k] == p;
      assert a[k] in multiset(b);
      var j :| 0 <= j < |b| && b[j] == a[k];
      assert PointersOf(b)[j] == p;
    }
    if p in PointersOf(b) {
      var k :| 0 <= k < |b| && PointersOf(b)[k] == p;
      assert b[k] in multiset(a);
      var j :| 0 <= j < |a| && a[j] == b[k];
      assert PointersOf(a)[j] == p;
    }
  }

  /** Each ranked entry is a scored one. */
  lemma RankedFacts(ps: seq<Pointer>, score: Pointer -> nat)
    ensures forall k :: 0 <= k < |Ranked(ps, score)| ==>
      var e := Ranked(ps, score)[k];
      e.score == score(e.p) > 0 && e.p in ps
  {
    var scored := ScoredPointers(ps, score);
    var ranked := Ranked(ps, score);
    ScoredFacts(ps, score);
    forall k | 0 <= k < |ranked|
      ensures ranked[k].score == score(ranked[k].p) > 0 && ranked[k].p in ps
    {
      assert ranked[k] in multiset(scored);
      var j :| 0 <= j < |scored| && scored[j] == ranked[k];
    }
  }

  /** The tagged top entries of a ranking: bounded, tagged, scored above zero, highest score first. */
  lemma TopFacts(ps: seq<Pointer>, score: Pointer -> nat, maxResults: int)
    ensures var r := Tagged(PrefixOf(Ranked(ps, score), maxResults));
      (maxResults >= 0 ==> |r| <= maxResults) && |r| <= |ps|
      && (forall k :: 0 <= k < |r| ==> r[k].reason == JStr("Keyword match") && r[k].p in ps && score(r[k].p) > 0)
      && (forall k :: 0 < k < |r| ==> score(r[k - 1].p) >= score(r[k].p))
  {
    var ranked := Ranked(ps, score);
    var kept := PrefixOf(ranked, maxResults);
    RankedFacts(ps, score);
    assert forall k :: 0 <= k < |kept| ==> kept[k] == ranked[k];
  }

  /**
   * Keyword results: at most `max_results` of them when that is not
   * negative, each tagged "Keyword match", each an input pointer with a
   * positive score, in non-increasing score order.
   */
  lemma KeywordResultsFacts(query: string, ps: seq<Pointer>, maxResults: int)
    ensures maxResults >= 0 ==> |KeywordResults(query, ps, maxResults)| <= maxResults
    ensures |KeywordResults(query, ps, maxResults)| <= |ps|
    ensures forall k :: 0 <= k < |KeywordResults(query, ps, maxResults)| ==>
      var m := KeywordResults(query, ps, maxResults)[k];
      m.reason == JStr("Keyword match") && m.p in ps && Score(query, m.p) > 0
    ensures forall k :: 0 < k < |KeywordResults(query, ps, maxResults)| ==>
      Score(query, KeywordResults(query, ps, maxResults)[k - 1].p) >= Score(query, KeywordResults(query, ps, maxResults)[k].p)
  {
    TopFacts(ps, Scorer(query), maxResults);
    assert forall x :: Scorer(query)(x) == Score(query, x);
  }

  /** The pointers of a list of matches. */
  function MatchedPointers(ms: seq<Match>): (r: seq<Pointer>)
    ensures |r| == |ms| && forall k :: 0 <= k < |ms| ==> r[k] == ms[k].p
  {
    seq(|ms|, k requires 0 <= k < |ms| => ms[k].p)
  }

  /** With room for all of them, the keyword results hold exactly the input pointers that score above zero. */
  lemma KeywordResultsComplete(query: string, ps: seq<Pointer>, maxResults: int, p: Pointer)
    requires maxResults >= |ps|
    ensures p in MatchedPointers(KeywordResults(query, ps, maxResults)) <==> p in ps && Score(query, p) > 0
  {
    var ranked := Ranked(ps, Scorer(query));
    assert PrefixOf(ranked, maxResults) == ranked;
    assert MatchedPointers(KeywordResults(query, ps, maxResults)) == PointersOf(ranked);
    PermutedPointers(ranked, ScoredPointers(ps, Scorer(query)), p);
    ScoredComplete(ps, Scorer(query), p);
  }
  /** The sort is stable: entries with equal scores keep their input order. */
  lemma RankedStable(ps: seq<Pointer>, score: Pointer -> nat, k: Scored)
    ensures Sorting.Ties(Ranked(ps, score), k, ScoreFirst) == Sorting.Ties(ScoredPointers(ps, score), k, ScoreFirst)
  {
    ScoreFirstPreorder();
    Sorting.SortByStable(ScoredPointers(ps, score), k, ScoreFirst);
  }

  /** `keyword_fallback_search`: score and collect, sort, then tag the first `max_results`. */
  method KeywordFallbackSearch(query: string, pointers: seq<Pointer>, maxResults: int) returns (results: seq<Match>)
    ensures results == KeywordResults(query, pointers, maxResults)
  {
    var scored := CollectScored(pointers, Scorer(query));
    ScoreFirstPreorder();
    scored := Sorting.SortBy(scored, ScoreFirst);
    results := TagAll(PrefixOf(scored, maxResults));
  }

  /** The loop of `keyword_fallback_search` that tags the kept entries. */
  method TagAll(kept: seq<Scored>) returns (results: seq<Match>)
    ensures results == Tagged(kept)
  {
    results := [];
    for k := 0 to |kept|
      invariant results == Tagged(kept[..k])
    {
      results := results + [Match(kept[k].p, JStr("Keyword match"))];
    }
    assert kept[..|kept|] == kept;
  }

  /** The scoring loop of `keyword_fallback_search`. */
  method CollectScored(pointers: seq<Pointer>, score: Pointer -> nat) returns (scored: seq<Scored>)
    ensures scored == ScoredPointers(pointers, score)
  {
    scored := [];
    for i := 0 to |pointers|
      invariant scored == ScoredPointers(pointers[..i], score)
    {
      var p := pointers[i];
      var s := score(p);
      if s > 0 {
        scored := scored + [Scored(s, p)];
      }
      assert pointers[..i + 1][..i] == pointers[..i];
    }
    assert pointers[..|pointers|] == pointers;
  }

  /** What one entry of the model's match list does: raise, be skipped, or pick a pointer. */
  datatype Pick = Raises | Skip | Take(index: nat, reason: Json)

  /**
   * One match: `.get` raises on anything but an object; a missing or null
   * index is skipped; an index compares as an integer (a boolean as 0 or 1)
   * and is kept only inside the list; any other index raises on comparison.
   */
  function PickOf(m: Json, count: nat): (r: Pick)
    ensures r.Take? ==> r.index < count
  {
    match m
    case JObj(fields) =>
      var reason := Get(fields, "reason", JStr(""));
      (match Get(fields, "index", JNull)
       case JNull => Skip
       case JNum(i) => if 0 <= i < count then Take(i, reason) else Skip
       case JBool(b) =>
         var i := if b then 1 else 0;
         if i < count then Take(i, reason) else Skip
       case _ => Raises)
    case _ => Raises
  }

  /** `matches[:max_results]`, or `None` where slicing raises; a string slices into one-character strings. */
  function Candidates(matches: Json, maxResults: int): (r: Option<seq<Json>>)
    ensures r.Some? && maxResults >= 0 ==> |r.value| <= maxResults
  {
    match matches
    case JArr(items) => Some(PrefixOf(items, maxResults))
    case JStr(s) =>
      var t := PrefixOf(s, maxResults);
      Some(seq(|t|, k requires 0 <= k < |t| => JStr([t[k]])))
    case _ => None
  }

  /** The pointers the candidates pick, in order, or `None` if one of them raises. */
  function Picked(cands: seq<Json>, ps: seq<Pointer>): (r: Option<seq<Match>>)
    ensures r.Some? ==> |r.value| <= |cands|
  {
    if cands == [] then Some([])
    else
      match Picked(cands[..|cands| - 1], ps)
      case None => None
      case Some(rs) =>
        match PickOf(cands[|cands| - 1], |ps|)
        case Raises => None
        case Skip => Some(rs)
        case Take(i, reason) => Some(rs + [Match(ps[i], reason)])
  }

  /** Every picked match is an input pointer. */
  lemma {:induction false} PickedFromPointers(cands: seq<Json>, ps: seq<Pointer>)
    requires Picked(cands, ps).Some?
    ensures forall k :: 0 <= k < |Picked(cands, ps).value| ==> Picked(cands, ps).value[k].p in ps
    decreases |cands|
  {
    if cands != [] {
      PickedFromPointers(cands[..|cands| - 1], ps);
    }
  }

  /**
   * What `search_with_gemini` returns: the keyword fallback when no key is
   * configured, when the call raises, when the reply does not parse, or
   * when handling the matches raises; otherwise the picked pointers.
   */
  function GeminiSearch(configured: bool, query: string, ps: seq<Pointer>, maxResults: int,
                        reply: Result<string, string>, parse: string -> ParseOutcome): seq<Match>
  {
    if !configured || reply.Failure? then KeywordResults(query, ps, maxResults)
    else
      match parse(JsonText.SearchReplyText(reply.value))
      case DecodeError(_, _) => KeywordResults(query, ps, maxResults)
      case Parsed(j) =>
        match Candidates(j, maxResults)
        case None => KeywordResults(query, ps, maxResults)
        case Some(cands) =>
          match Picked(cands, ps)
          case None => KeywordResults(query, ps, maxResults)
          case Some(rs) => rs
  }

  /**
   * Either way, the search returns at most `max_results` input pointers
   * (when that is not negative); without a key, after a failed call and
   * after a reply that does not parse, it is the keyword search.
   */
  lemma GeminiSearchFacts(configured: bool, query: string, ps: seq<Pointer>, maxResults: int,
                          reply: Result<string, string>, parse: string -> ParseOutcome)
    ensures maxResults >= 0 ==> |GeminiSearch(configured, query, ps, maxResults, reply, parse)| <= maxResults
    ensures forall k :: 0 <= k < |GeminiSearch(configured, query, ps, maxResults, reply, parse)| ==>
      GeminiSearch(configured, query, ps, maxResults, reply, parse)[k].p in ps
    ensures !configured || reply.Failure? || parse(JsonText.SearchReplyText(reply.value)).DecodeError? ==>
      GeminiSearch(configured, query, ps, maxResults, reply, parse) == KeywordResults(query, ps, maxResults)
  {
    var g := GeminiSearch(configured, query, ps, maxResults, reply, parse);
    var kw := KeywordResults(query, ps, maxResults);
    KeywordResultsFacts(query, ps, maxResults);
    if !configured || reply.Failure? {
      assert g == kw;
    } else {
      var t := JsonText.SearchReplyText(reply.value);
      if parse(t).DecodeError? {
        assert g == kw;
      } else {
        var c := Candidates(parse(t).value, maxResults);
        if c.Some? && Picked(c.value, ps).Some? {
          assert g == Picked(c.value, ps).value;
          PickedFromPointers(c.value, ps);
        } else {
          assert g == kw;
        }
      }
    }
  }

  /** A list of objects whose indices all lie outside the pointer list picks nothing. */
  lemma {:induction false} OutOfRangeSkipped(cands: seq<Json>, ps: seq<Pointer>)
    requires forall k :: 0 <= k < |cands| ==>
      cands[k].JObj? && "index" in cands[k].fields && cands[k].fields["index"].JNum?
      && (cands[k].fields["index"].n < 0 || cands[k].fields["index"].n >= |ps|)
    ensures Picked(cands, ps) == Some([])
    decreases |cands|
  {
    if cands != [] {
      OutOfRangeSkipped(cands[..|cands| - 1], ps);
    }
  }

  /** `search_with_gemini`, with the model's reply (or the exception it raised) given. */
  method SearchWithGemini(configured: bool, query: string, pointers: seq<Pointer>, maxResults: int,
                          reply: Result<string, string>, parse: string -> ParseOutcome)
    returns (results: seq<Match>)
    ensures results == GeminiSearch(configured, query, pointers, maxResults, reply, parse)
  {
    if !configured || reply.Failure? {
      results := KeywordFallbackSearch(query, pointers, maxResults);
      return;
    }
    var text := JsonText.SearchReplyText(reply.value);
    var parsed := parse(text);
    if parsed.DecodeError? {
      results := KeywordFallbackSearch(query, pointers, maxResults);
      return;
    }
    var cands := Candidates(parsed.value, maxResults);
    if cands.None? {
      results := KeywordFallbackSearch(query, pointers, maxResults);
      return;
    }
    var picked := PickAll(cands.value, pointers);
    if picked.None? {
      results := KeywordFallbackSearch(query, pointers, maxResults);
      return;
    }
    results := picked.value;
  }

  /** The loop over the candidate matches. */
  method PickAll(cands: seq<Json>, ps: seq<Pointer>) returns (r: Option<seq<Match>>)
    ensures r == Picked(cands, ps)
  {
    var results: seq<Match> := [];
    for i := 0 to |cands|
      invariant Picked(cands[..i], ps) == Some(results)
    {
      assert cands[..i + 1][..i] == cands[..i];
      var pick := PickOf(cands[i], |ps|);
      if pick.Raises? {
        PickedRaisesStays(cands, i + 1, ps);
        return None;
      }
      if pick.Take? {
        results := results + [Match(ps[pick.index], pick.reason)];
      }
    }
    assert cands[..|cands|] == cands;
    r := Some(results);
  }

  /** Once a prefix of the candidates raises, so does the whole list. */
  lemma {:induction false} PickedRaisesStays(cands: seq<Json>, n: nat, ps: seq<Pointer>)
    requires n <= |cands| && Picked(cands[..n], ps).None?
    ensures Picked(cands, ps).None?
    decreases |cands| - n
  {
    if n < |cands| {
      assert cands[..n + 1][..n] == cands[..n];
      PickedRaisesStays(cands, n + 1, ps);
    } else {
      assert cands[..n] == cands;
    }
  }

  /** An entry of the search response. */
  datatype PointerResult = PointerResult(
    pointerId: string,
    sheetId: string,
    fileName: string,
    title: string,
    boundingBox: Json,
    description: string,
    tradeCategory: string,
    relevanceReason: Json)

  datatype SearchResponse = SearchResponse(query: string, results: seq<PointerResult>, totalPointersSearched: nat)

  function ResultOf(m: Match): PointerResult {
    PointerResult(m.p.pointerId, m.p.sheetId, m.p.fileName, m.p.title, m.p.boundingBox,
                  m.p.technicalDescription, m.p.tradeCategory, m.reason)
  }

  /** The matches that have a truthy bounding box, as response entries, in order. */
  function WithBox(ms: seq<Match>): (r: seq<PointerResult>)
    ensures |r| <= |ms|
  {
    if ms == [] then []
    else WithBox(ms[..|ms| - 1]) + (if Truthy(ms[|ms| - 1].p.boundingBox) then [ResultOf(ms[|ms| - 1])] else [])
  }

  /** The response entries of all the matches, boxed or not. */
  function AllResults(ms: seq<Match>): (r: seq<PointerResult>)
    ensures |r| == |ms| && forall k :: 0 <= k < |ms| ==> r[k] == ResultOf(ms[k])
  {
    seq(|ms|, k requires 0 <= k < |ms| => ResultOf(ms[k]))
  }

  /** Every response entry has a truthy bounding box and is the entry of one of the matches. */
  lemma {:induction false} WithBoxFacts(ms: seq<Match>)
    ensures forall x :: x in WithBox(ms) ==> Truthy(x.boundingBox) && x in AllResults(ms)
    decreases |ms|
  {
    if ms != [] {
      var prefix := ms[..|ms| - 1];
      WithBoxFacts(prefix);
      assert AllResults(ms) == AllResults(prefix) + [ResultOf(ms[|ms| - 1])];
    }
  }

  /** A match with a truthy bounding box always makes it into the response. */
  lemma {:induction false} WithBoxKeeps(ms: seq<Match>, i: nat)
    requires i < |ms| && Truthy(ms[i].p.boundingBox)
    ensures ResultOf(ms[i]) in WithBox(ms)
    decreases |ms|
  {
    var prefix := ms[..|ms| - 1];
    if i < |prefix| {
      WithBoxKeeps(prefix, i);
      assert prefix[i] == ms[i];
    }
  }

  /** A field `BoundingBox` accepts as a float: a number. */
  predicate NumberField(fields: map<string, Json>, key: string) {
    key in fields && fields[key].JNum?
  }

  /** A box `BoundingBox(**box)` builds from: an object with the four normalised coordinates as numbers. */
  predicate ValidBox(j: Json) {
    j.JObj? && NumberField(j.fields, "xNorm") && NumberField(j.fields, "yNorm")
    && NumberField(j.fields, "wNorm") && NumberField(j.fields, "hNorm")
  }

  /**
   * A match the response can hold: one without a truthy box is skipped, one
   * with a box needs a valid box and a string reason, or building its
   * `PointerResult` raises.
   */
  predicate Admissible(m: Match) {
    Truthy(m.p.boundingBox) ==> ValidBox(m.p.boundingBox) && m.reason.JStr?
  }

  predicate AllAdmissible(ms: seq<Match>) {
    forall k :: 0 <= k < |ms| ==> Admissible(ms[k])
  }

  /** The entries of the response, or the status of the validation error a kept match raises. */
  function Entries(ms: seq<Match>): Result<seq<PointerResult>, nat> {
    if AllAdmissible(ms) then Success(WithBox(ms)) else Failure(500)
  }

  /** The response `search` gives, or the status of the error it raises. */
  function SearchResult(query: string, data: Option<ProjectData>, maxResults: int, configured: bool,
                        reply: Result<string, string>, parse: string -> ParseOutcome): Result<SearchResponse, nat>
  {
    if data.None? then Failure(404)
    else
      var ps := Flatten(data.value.sheets);
      if ps == [] then Success(SearchResponse(query, [], 0))
      else
        var es := Entries(GeminiSearch(configured, query, ps, maxResults, reply, parse));
        if es.Failure? then Failure(es.error) else Success(SearchResponse(query, es.value, |ps|))
  }

  /** The ids of a list of pointers. */
  function PointerIds(ps: seq<Pointer>): (r: seq<string>)
    ensures |r| == |ps| && forall k :: 0 <= k < |ps| ==> r[k] == ps[k].pointerId
  {
    seq(|ps|, k requires 0 <= k < |ps| => ps[k].pointerId)
  }

  /**
   * The search endpoint: a missing project is a 404; a kept match whose box
   * or reason `PointerResult` refuses is a 500, and nothing else fails;
   * otherwise the count reported is the number of flattened pointers, which
   * is the total `get_project` reports.
   */
  lemma SearchResultCount(query: string, data: Option<ProjectData>, maxResults: int, configured: bool,
                          reply: Result<string, string>, parse: string -> ParseOutcome)
    ensures data.None? <==> SearchResult(query, data, maxResults, configured, reply, parse) == Failure(404)
    ensures data.Some? ==>
      var ps := Flatten(data.value.sheets);
      var ms := GeminiSearch(configured, query, ps, maxResults, reply, parse);
      ((SearchResult(query, data, maxResults, configured, reply, parse) == Failure(500)) <==>
         (ps != [] && exists k :: 0 <= k < |ms| && !Admissible(ms[k])))
      && (SearchResult(query, data, maxResults, configured, reply, parse).Success? <==>
         (ps == [] || AllAdmissible(ms)))
    ensures SearchResult(query, data, maxResults, configured, reply, parse).Success? ==>
      var r := SearchResult(query, data, maxResults, configured, reply, parse).value;
      r.query == query && r.totalPointersSearched == TotalPointers(Summaries(data.value.sheets))
  {
    if data.Some? {
      FlattenCount(data.value.sheets);
    }
  }

  /**
   * The entries of a search response: at most `max_results`, each one of
   * the project's pointers with a valid bounding box and a string reason.
   */
  lemma SearchResultEntries(query: string, data: Option<ProjectData>, maxResults: int, configured: bool,
                            reply: Result<string, string>, parse: string -> ParseOutcome)
    requires SearchResult(query, data, maxResults, configured, reply, parse).Success?
    ensures var r := SearchResult(query, data, maxResults, configured, reply, parse).value;
      (maxResults >= 0 ==> |r.results| <= maxResults)
      && forall x :: x in r.results ==>
           ValidBox(x.boundingBox) && x.relevanceReason.JStr? && x.pointerId in PointerIds(Flatten(data.value.sheets))
  {
    var ps := Flatten(data.value.sheets);
    if ps != [] {
      var ms := GeminiSearch(configured, query, ps, maxResults, reply, parse);
      GeminiSearchFacts(configured, query, ps, maxResults, reply, parse);
      BoxedEntries(ms, ps);
      AdmissibleEntries(ms);
    }
  }

  /** Entries kept from matches on the given pointers are boxed entries of those pointers. */
  lemma BoxedEntries(ms: seq<Match>, ps: seq<Pointer>)
    requires forall k :: 0 <= k < |ms| ==> ms[k].p in ps
    ensures forall x :: x in WithBox(ms) ==> Truthy(x.boundingBox) && x.pointerId in PointerIds(ps)
  {
    WithBoxFacts(ms);
  }

  /** When every match is admissible, every entry has a valid box and a string reason. */
  lemma AdmissibleEntries(ms: seq<Match>)
    requires AllAdmissible(ms)
    ensures forall x :: x in WithBox(ms) ==> ValidBox(x.boundingBox) && x.relevanceReason.JStr?
  {
    WithBoxFacts(ms);
    forall x | x in WithBox(ms)
      ensures ValidBox(x.boundingBox) && x.relevanceReason.JStr?
    {
      var k :| 0 <= k < |ms| && AllResults(ms)[k] == x;
      assert Admissible(ms[k]);
    }
  }

  /** `search`, step by step. */
  method Search(query: string, data: Option<ProjectData>, maxResults: int, configured: bool,
                reply: Result<string, string>, parse: string -> ParseOutcome)
    returns (r: Result<SearchResponse, nat>)
    ensures r == SearchResult(query, data, maxResults, configured, reply, parse)
  {
    if data.None? {
      return Failure(404);
    }
    var pointers := GetAllPointers(data.value);
    if pointers == [] {
      return Success(SearchResponse(query, [], 0));
    }
    var matches := SearchWithGemini(configured, query, pointers, maxResults, reply, parse);
    var results := BoxedResults(matches);
    if results.Failure? {
      return Failure(results.error);
    }
    r := Success(SearchResponse(query, results.value, |pointers|));
  }

  /** The loop of `search` that builds an entry for each match with a bounding box, and stops at the first it cannot build. */
  method BoxedResults(matches: seq<Match>) returns (r: Result<seq<PointerResult>, nat>)
    ensures r == Entries(matches)
  {
    var results := [];
    for i := 0 to |matches|
      invariant results == WithBox(matches[..i])
      invariant AllAdmissible(matches[..i])
    {
      assert matches[..i + 1][..i] == matches[..i];
      if Truthy(matches[i].p.boundingBox) {
        if !ValidBox(matches[i].p.boundingBox) || !matches[i].reason.JStr? {
          assert !Admissible(matches[i]);
          return Failure(500);
        }
        results := results + [ResultOf(matches[i])];
      }
      assert Admissible(matches[i]);
      assert matches[..i + 1][i] == matches[i];
    }
    assert matches[..|matches|] == matches;
    r := Success(results);
  }
}
