/**
 * The deterministic parts of the Gemini analysis service: the MIME type of
 * an image from its magic bytes, the parser of the TITLE/DESCRIPTION reply
 * to a highlight analysis, and what `analyze_context_pointer` makes of the
 * model's reply (fence removal, defaults, the extended retry, fallbacks).
 */
module GeminiService {
  import opened Wrappers
  import opened Text
  import opened JsonText
  import opened JsonValue
  import Retry

  // ---------------------------------------------------------------------
  // MIME sniffing
  // ---------------------------------------------------------------------

  newtype byte = x: int | 0 <= x < 256

  const JpegMagic: seq<byte> := [0xFF, 0xD8, 0xFF]
  const PngMagic: seq<byte> := [0x89, 0x50, 0x4E, 0x47, 0x0D, 0x0A, 0x1A, 0x0A]
  const PdfMagic: seq<byte> := [0x25, 0x50, 0x44, 0x46]

  /** `data[:n] == magic`: a shorter input has a shorter slice and never matches. */
  predicate HasMagic(data: seq<byte>, magic: seq<byte>) {
    |magic| <= |data| && data[..|magic|] == magic
  }

  /** The MIME rule of `_bytes_to_image_part`: JPEG, PNG and PDF signatures, PNG by default. */
  function MimeType(data: seq<byte>): (m: string)
    ensures m == "image/jpeg" <==> HasMagic(data, JpegMagic)
    ensures m == "application/pdf" <==> HasMagic(data, PdfMagic)
    ensures m == "image/png" <==> !HasMagic(data, JpegMagic) && !HasMagic(data, PdfMagic)
  {
    if HasMagic(data, JpegMagic) then
      assert data[0] == JpegMagic[0];
      "image/jpeg"
    else if HasMagic(data, PngMagic) then
      assert data[0] == PngMagic[0];
      "image/png"
    else if HasMagic(data, PdfMagic) then
      assert data[0] == PdfMagic[0];
      "application/pdf"
    else "image/png"
  }

  // ---------------------------------------------------------------------
  // The TITLE/DESCRIPTION reply
  // ---------------------------------------------------------------------

  datatype Highlight = Highlight(title: string, description: string)

  const DefaultHighlight := Highlight("Highlight", "")

  predicate IsTitleLine(line: string) {
    StartsWith(Upper(line), "TITLE:")
  }

  predicate IsDescriptionLine(line: string) {
    StartsWith(Upper(line), "DESCRIPTION:")
  }

  predicate IsLabelled(line: string) {
    IsTitleLine(line) || IsDescriptionLine(line)
  }

  /** One pass of the parsing loop: a labelled line (once stripped) sets its field. */
  function ScanLine(h: Highlight, line: string): Highlight {
    var l := Strip(line);
    if IsTitleLine(l) then h.(title := Strip(l[6..]))
    else if IsDescriptionLine(l) then h.(description := Strip(l[12..]))
    else h
  }

  /** The loop over all lines, from the defaults. */
  function ScanLines(lines: seq<string>): Highlight
    decreases |lines|
  {
    if lines == [] then DefaultHighlight else ScanLine(ScanLines(lines[..|lines| - 1]), lines[|lines| - 1])
  }

  /** Titles longer than 50 characters keep 47 of them and gain "...". */
  function Shorten(title: string): (r: string)
    ensures |r| <= 50
    ensures |title| <= 50 ==> r == title
    ensures |title| > 50 ==> |r| == 50 && r[..47] == title[..47] && r[47..] == "..."
  {
    if |title| > 50 then title[..47] + "..." else title
  }

  /**
   * After the loop: with no description found in a non-blank reply, an
   * unlabelled reply of two or more lines is split into title and
   * description, any other becomes the description whole; then the title is
   * shortened.
   */
  function Finish(scanned: Highlight, stripped: string, lines: seq<string>): (h: Highlight)
    requires |lines| >= 1
    ensures |h.title| <= 50
  {
    var h := Unlabelled(scanned, stripped, lines);
    h.(title := Shorten(h.title))
  }

  /** The reply as title and description when the loop found no description. */
  function Unlabelled(scanned: Highlight, stripped: string, lines: seq<string>): Highlight
    requires |lines| >= 1
  {
    if scanned.description == "" && stripped != "" then
      if |lines| >= 2 && !(exists l :: l in lines && IsLabelled(l)) then
        Highlight(Strip(lines[0]), Strip(Join(lines[1..], " ")))
      else scanned.(description := stripped)
    else scanned
  }

  /** What `_parse_highlight_response` returns. */
  function HighlightOf(text: string): (h: Highlight)
    ensures |h.title| <= 50
  {
    var lines := Split(Strip(text), '\n');
    Finish(ScanLines(lines), Strip(text), lines)
  }

  /** `_parse_highlight_response` */
  method ParseHighlightResponse(responseText: string) returns (h: Highlight)
    ensures h == HighlightOf(responseText)
  {
    var lines := Split(Strip(responseText), '\n');
    var scanned := ScanAll(lines);
    h := FinishHighlight(scanned, Strip(responseText), lines);
  }

  /** The loop of `_parse_highlight_response` over the lines of the stripped reply. */
  method ScanAll(lines: seq<string>) returns (scanned: Highlight)
    ensures scanned == ScanLines(lines)
  {
    var title, description := "Highlight", "";
    for i := 0 to |lines|
      invariant Highlight(title, description) == ScanLines(lines[..i])
    {
      title, description := ScanStep(title, description, lines[i]);
      assert lines[..i + 1][..i] == lines[..i] && lines[..i + 1][i] == lines[i];
      assert ScanLines(lines[..i + 1]) == ScanLine(ScanLines(lines[..i]), lines[i]);
    }
    assert lines[..|lines|] == lines;
    scanned := Highlight(title, description);
  }

  /** One line of the loop of `_parse_highlight_response`. */
  method ScanStep(title0: string, description0: string, rawLine: string) returns (title: string, description: string)
    ensures Highlight(title, description) == ScanLine(Highlight(title0, description0), rawLine)
  {
    title, description := title0, description0;
    var line := Strip(rawLine);
    if IsTitleLine(line) {
      title := Strip(line[6..]);
    } else if IsDescriptionLine(line) {
      description := Strip(line[12..]);
    }
  }

  /** The fallback and the title limit, after the loop of `_parse_highlight_response`. */
  method FinishHighlight(scanned: Highlight, stripped: string, lines: seq<string>) returns (h: Highlight)
    requires |lines| >= 1
    ensures h == Finish(scanned, stripped, lines)
  {
    var title, description := scanned.title, scanned.description;
    if description == "" && stripped != "" {
      if |lines| >= 2 && !(exists l :: l in lines && IsLabelled(l)) {
        title := Strip(lines[0]);
        description := Strip(Join(lines[1..], " "));
      } else {
        description := stripped;
      }
    }
    assert Highlight(title, description) == Unlabelled(scanned, stripped, lines);
    if |title| > 50 {
      title := title[..47] + "...";
    }
    h := Highlight(title, description);
  }

  lemma UpperOfUpper(s: string)
    requires forall i :: 0 <= i < |s| ==> !IsLowerLetter(s[i])
    ensures Upper(s) == s
  {
  }

  /** "TITLE: " followed by a value is a title line, and not a description line. */
  lemma LabelLine(tag: string, v: string)
    requires tag == "TITLE: " || tag == "DESCRIPTION: "
    ensures Upper(tag + v)[..|tag| - 1] == tag[..|tag| - 1]
    ensures IsTitleLine(tag + v) <==> tag == "TITLE: "
    ensures IsDescriptionLine(tag + v) <==> tag == "DESCRIPTION: "
  {
    var u := Upper(tag + v);
    assert u[..|tag|] == Upper(tag) by {
      assert forall i :: 0 <= i < |tag| ==> u[i] == UpperChar(tag[i]);
    }
    UpperOfUpper(tag);
    assert u[..|tag| - 1] == tag[..|tag| - 1];
    assert u[0] == tag[0];
  }

  /** A stripped value after a label's space comes back out of strip unchanged. */
  lemma StripAfterSpace(v: string)
    requires v != [] && IsStripped(v)
    ensures Strip([' '] + v) == v
  {
    assert LStrip([' '] + v) == LStrip(v) by {
      assert ([' '] + v)[1..] == v;
    }
  }

  /** A title line with a stripped value sets the title to the value. */
  lemma ScanTitleLine(h: Highlight, v: string)
    requires v != [] && IsStripped(v)
    ensures ScanLine(h, "TITLE: " + v) == h.(title := v)
  {
    var l := "TITLE: " + v;
    assert l[0] == 'T' && l[|l| - 1] == v[|v| - 1];
    assert Strip(l) == l;
    LabelLine("TITLE: ", v);
    assert l[6..] == [' '] + v;
    StripAfterSpace(v);
  }

  /** A description line with a stripped value sets the description to the value. */
  lemma ScanDescriptionLine(h: Highlight, v: string)
    requires v != [] && IsStripped(v)
    ensures ScanLine(h, "DESCRIPTION: " + v) == h.(description := v)
  {
    var l := "DESCRIPTION: " + v;
    assert l[0] == 'D' && l[|l| - 1] == v[|v| - 1];
    assert Strip(l) == l;
    LabelLine("DESCRIPTION: ", v);
    assert l[12..] == [' '] + v;
    StripAfterSpace(v);
  }

  /** A stripped reply of two lines is scanned line by line. */
  lemma HighlightOfTwoLines(a: string, b: string)
    requires '\n' !in a && '\n' !in b && IsStripped(a + ['\n'] + b)
    ensures HighlightOf(a + ['\n'] + b)
      == Finish(ScanLine(ScanLine(DefaultHighlight, a), b), a + ['\n'] + b, [a, b])
  {
    var text := a + ['\n'] + b;
    SplitPrepend(a, '\n', b);
    assert Split(Strip(text), '\n') == [a, b];
    assert ScanLines([a]) == ScanLine(DefaultHighlight, a) by {
      assert [a][..0] == [];
    }
    assert [a, b][..1] == [a];
    assert ScanLines([a, b]) == ScanLine(ScanLines([a]), b);
  }

  /** A reply in the requested format gives back its title and description. */
  lemma HighlightOfLabelled(x: string, y: string)
    requires x != [] && y != [] && IsStripped(x) && IsStripped(y)
    requires '\n' !in x && '\n' !in y && |x| <= 50
    ensures HighlightOf("TITLE: " + x + "\nDESCRIPTION: " + y) == Highlight(x, y)
  {
    var a, b := "TITLE: " + x, "DESCRIPTION: " + y;
    var text := a + ['\n'] + b;
    assert "TITLE: " + x + "\nDESCRIPTION: " + y == text;
    assert text[0] == 'T' && text[|text| - 1] == y[|y| - 1];
    assert '\n' !in a && '\n' !in b;
    HighlightOfTwoLines(a, b);
    ScanTitleLine(DefaultHighlight, x);
    ScanDescriptionLine(Highlight(x, ""), y);
  }

  /** The last title line decides the title: later labelled lines override earlier ones. */
  lemma {:induction false} LastTitleWins(lines: seq<string>, k: nat)
    requires k < |lines| && IsTitleLine(Strip(lines[k]))
    requires forall j :: k < j < |lines| ==> !IsTitleLine(Strip(lines[j]))
    ensures |Strip(lines[k])| >= 6 && ScanLines(lines).title == Strip(Strip(lines[k])[6..])
    decreases |lines|
  {
    if k < |lines| - 1 {
      var init := lines[..|lines| - 1];
      assert init[k] == lines[k];
      assert forall j :: k < j < |init| ==> init[j] == lines[j];
      LastTitleWins(init, k);
      var last := Strip(lines[|lines| - 1]);
      assert !IsTitleLine(last);
      assert ScanLines(lines) == ScanLine(ScanLines(init), lines[|lines| - 1]);
      assert ScanLines(lines).title == ScanLines(init).title;
    } else {
      assert ScanLines(lines) == ScanLine(ScanLines(lines[..k]), lines[k]);
    }
  }

  /** The same for the description. */
  lemma {:induction false} LastDescriptionWins(lines: seq<string>, k: nat)
    requires k < |lines| && IsDescriptionLine(Strip(lines[k])) && !IsTitleLine(Strip(lines[k]))
    requires forall j :: k < j < |lines| ==> !IsDescriptionLine(Strip(lines[j])) || IsTitleLine(Strip(lines[j]))
    ensures |Strip(lines[k])| >= 12 && ScanLines(lines).description == Strip(Strip(lines[k])[12..])
    decreases |lines|
  {
    if k < |lines| - 1 {
      var init := lines[..|lines| - 1];
      assert init[k] == lines[k];
      assert forall j :: k < j < |init| ==> init[j] == lines[j];
      LastDescriptionWins(init, k);
      var last := Strip(lines[|lines| - 1]);
      assert !IsDescriptionLine(last) || IsTitleLine(last);
      assert ScanLines(lines).description == ScanLines(init).description;
    }
  }

  /** A line shorter than "TITLE:" carries no label, stripped or not. */
  lemma ShortNotLabelled(line: string)
    requires |line| < 6
    ensures !IsLabelled(line) && !IsLabelled(Strip(line))
  {
    assert |Upper(line)| < 6 && |Upper(Strip(line))| < 6;
  }

  /** Without labelled lines the loop keeps the defaults. */
  lemma {:induction false} ScanUnlabelled(lines: seq<string>)
    requires forall l :: l in lines ==> !IsLabelled(Strip(l))
    ensures ScanLines(lines) == DefaultHighlight
    decreases |lines|
  {
    if lines != [] {
      ScanUnlabelled(lines[..|lines| - 1]);
    }
  }

  /** A blank reply gives the default title and an empty description. */
  lemma HighlightOfBlank(text: string)
    requires Strip(text) == ""
    ensures HighlightOf(text) == DefaultHighlight
  {
    assert Split("", '\n') == [""];
    ShortNotLabelled("");
    ScanUnlabelled([""]);
    assert HighlightOf(text) == Finish(DefaultHighlight, "", [""]);
  }

  /** An unlabelled reply of two or more lines: the first line is the title, the rest joined by spaces the description. */
  lemma HighlightOfUnlabelled(text: string)
    requires var lines := Split(Strip(text), '\n');
      |lines| >= 2 && forall l :: l in lines ==> !IsLabelled(l) && !IsLabelled(Strip(l))
    ensures var lines := Split(Strip(text), '\n');
      HighlightOf(text) == Highlight(Shorten(Strip(lines[0])), Strip(Join(lines[1..], " ")))
  {
    var lines := Split(Strip(text), '\n');
    ScanUnlabelled(lines);
    assert lines[0] in lines;
  }

  /** A single unlabelled line becomes the description under the default title. */
  lemma HighlightOfOneLine(text: string)
    requires Strip(text) != "" && '\n' !in Strip(text) && !IsLabelled(Strip(text))
    ensures HighlightOf(text) == Highlight("Highlight", Strip(text))
  {
    var t := Strip(text);
    assert Split(t, '\n') == [t];
    assert Strip(t) == t;
    ScanUnlabelled([t]);
  }

  // ---------------------------------------------------------------------
  // analyze_context_pointer
  // ---------------------------------------------------------------------

  /** The six fields of an analysis; their values are whatever the reply held. */
  datatype Analysis = Analysis(
    technicalDescription: Json, identifiedElements: Json, tradeCategory: Json,
    measurements: Json, issues: Json, recommendations: Json)

  const AnalysisKeys: set<string> := {"technicalDescription", "identifiedElements", "tradeCategory",
                                      "measurements", "issues", "recommendations"}

  /** The default each field gets when the reply lacks it. */
  function DefaultFor(key: string): Json {
    if key == "tradeCategory" then JStr("general")
    else if key == "technicalDescription" || key == "recommendations" then JStr("")
    else JArr([])
  }

  /** The analysis as the dictionary the service returns. */
  function AsObject(a: Analysis): (m: map<string, Json>)
    ensures m.Keys == AnalysisKeys
  {
    map["technicalDescription" := a.technicalDescription, "identifiedElements" := a.identifiedElements,
        "tradeCategory" := a.tradeCategory, "measurements" := a.measurements,
        "issues" := a.issues, "recommendations" := a.recommendations]
  }

  /** The six `parsed.get(key, default)` lookups. */
  function Normalise(fields: map<string, Json>): Analysis {
    Analysis(
      Get(fields, "technicalDescription", DefaultFor("technicalDescription")),
      Get(fields, "identifiedElements", DefaultFor("identifiedElements")),
      Get(fields, "tradeCategory", DefaultFor("tradeCategory")),
      Get(fields, "measurements", DefaultFor("measurements")),
      Get(fields, "issues", DefaultFor("issues")),
      Get(fields, "recommendations", DefaultFor("recommendations")))
  }

  /**
   * A normalised reply has exactly the six keys, each holding the reply's
   * value when it has one and the default otherwise; other keys are dropped.
   */
  lemma NormaliseDefaults(fields: map<string, Json>)
    ensures AsObject(Normalise(fields)).Keys == AnalysisKeys
    ensures forall k :: k in AnalysisKeys ==>
      AsObject(Normalise(fields))[k] == if k in fields then fields[k] else DefaultFor(k)
  {
  }

  /** Normalising an analysis's own dictionary gives it back. */
  lemma NormaliseAsObject(a: Analysis)
    ensures Normalise(AsObject(a)) == a
  {
  }

  /** `_get_fallback_analysis` */
  function Fallback(errorMessage: string): Analysis {
    Analysis(JStr("Analysis failed to parse"), JArr([]), JStr("other"), JArr([]),
             JArr([JObj(map["severity" := JStr("warning"), "description" := JStr("Error: " + errorMessage)])]),
             JStr(""))
  }

  /** What a reply parses to: the normalised object, or the error a non-object raises at `.get`. */
  function FromParsed(j: Json): Result<Analysis, string> {
    if j.JObj? then Success(Normalise(j.fields)) else Failure(NoGetMessage(j))
  }

  /** The analysis and whether the extended retry was made. */
  datatype AnalysisRun = AnalysisRun(analysis: Analysis, extended: bool)

  /** The parse error lies within 50 characters of the end of the raw reply: the reply looks truncated. */
  predicate LooksTruncated(pos: nat, reply: string) {
    pos != 0 && |reply| > 0 && pos >= |reply| - 50
  }

  /** The extended retry: any failure in it falls back to the first parse error. */
  function ExtendedRetry(second: nat -> Retry.Outcome<string>, parse: string -> ParseOutcome): Option<Analysis> {
    match Retry.RetryOutcome(second, true)
    case Failure(_) => None
    case Success(reply) =>
      if reply == "" then None
      else
        match parse(FenceFreeReply(reply))
        case DecodeError(_, _) => None
        case Parsed(j) => if j.JObj? then Some(Normalise(j.fields)) else None
  }

  /**
   * `analyze_context_pointer` after the prompt: the first call with retries,
   * then the reply handling. Every failure ends in the fallback analysis.
   */
  function AnalyzeContextPointer(first: nat -> Retry.Outcome<string>, second: nat -> Retry.Outcome<string>,
                                 parse: string -> ParseOutcome): (r: AnalysisRun)
    ensures r.extended <==>
      var out := Retry.RetryOutcome(first, true);
      out.Success? && Strip(out.value) != "" && parse(FenceFreeReply(out.value)).DecodeError?
      && LooksTruncated(parse(FenceFreeReply(out.value)).pos, out.value)
    ensures Retry.RetryOutcome(first, true).Failure? ==>
      r.analysis == Fallback(Retry.RetryOutcome(first, true).error.message)
    ensures Retry.RetryOutcome(first, true).Success? && Strip(Retry.RetryOutcome(first, true).value) == "" ==>
      r.analysis == Fallback("Empty response from Gemini")
  {
    var out := Retry.RetryOutcome(first, true);
    if out.Failure? then AnalysisRun(Fallback(out.error.message), false)
    else if Strip(out.value) == "" then AnalysisRun(Fallback("Empty response from Gemini"), false)
    else
      match parse(FenceFreeReply(out.value))
      case Parsed(j) =>
        (match FromParsed(j)
         case Success(a) => AnalysisRun(a, false)
         case Failure(m) => AnalysisRun(Fallback(m), false))
      case DecodeError(pos, message) =>
        var fallback := Fallback("JSON parse error: " + message);
        if LooksTruncated(pos, out.value) then AnalysisRun(ExtendedRetry(second, parse).GetOr(fallback), true)
        else AnalysisRun(fallback, false)
  }

  /** A reply that parses to an object is normalised; a parse error away from the end falls back at once. */
  lemma AnalyzeReply(first: nat -> Retry.Outcome<string>, second: nat -> Retry.Outcome<string>,
                     parse: string -> ParseOutcome, reply: string)
    requires Retry.RetryOutcome(first, true) == Success(reply) && Strip(reply) != ""
    ensures parse(FenceFreeReply(reply)).Parsed? && parse(FenceFreeReply(reply)).value.JObj? ==>
      AnalyzeContextPointer(first, second, parse).analysis == Normalise(parse(FenceFreeReply(reply)).value.fields)
    ensures parse(FenceFreeReply(reply)).DecodeError? && !LooksTruncated(parse(FenceFreeReply(reply)).pos, reply) ==>
      AnalyzeContextPointer(first, second, parse).analysis == Fallback("JSON parse error: " + parse(FenceFreeReply(reply)).message)
  {
  }

  /**
   * A reply whose parse error lies near its end is retried: a retry reply
   * that parses to an object gives its normalised analysis; any other retry
   * outcome falls back to the first parse error.
   */
  lemma AnalyzeTruncatedReply(first: nat -> Retry.Outcome<string>, second: nat -> Retry.Outcome<string>,
                              parse: string -> ParseOutcome, reply: string)
    requires Retry.RetryOutcome(first, true) == Success(reply) && Strip(reply) != ""
    requires parse(FenceFreeReply(reply)).DecodeError? && LooksTruncated(parse(FenceFreeReply(reply)).pos, reply)
    ensures var out := Retry.RetryOutcome(second, true);
      out.Success? && out.value != "" && parse(FenceFreeReply(out.value)).Parsed?
      && parse(FenceFreeReply(out.value)).value.JObj? ==>
        AnalyzeContextPointer(first, second, parse).analysis == Normalise(parse(FenceFreeReply(out.value)).value.fields)
    ensures var out := Retry.RetryOutcome(second, true);
      !(out.Success? && out.value != "" && parse(FenceFreeReply(out.value)).Parsed?
        && parse(FenceFreeReply(out.value)).value.JObj?) ==>
        AnalyzeContextPointer(first, second, parse).analysis == Fallback("JSON parse error: " + parse(FenceFreeReply(reply)).message)
  {
  }

  /** A first reply that parses to something other than an object fails at `.get` and falls back with that error. */
  lemma AnalyzeNonObjectReply(first: nat -> Retry.Outcome<string>, second: nat -> Retry.Outcome<string>,
                              parse: string -> ParseOutcome, reply: string)
    requires Retry.RetryOutcome(first, true) == Success(reply) && Strip(reply) != ""
    requires parse(FenceFreeReply(reply)).Parsed? && !parse(FenceFreeReply(reply)).value.JObj?
    ensures AnalyzeContextPointer(first, second, parse) ==
      AnalysisRun(Fallback(NoGetMessage(parse(FenceFreeReply(reply)).value)), false)
  {
  }

  /** A fenced JSON reply is parsed from its body. */
  lemma AnalyzeFencedReply(first: nat -> Retry.Outcome<string>, second: nat -> Retry.Outcome<string>,
                           parse: string -> ParseOutcome, lang: string, body: string, fields: map<string, Json>)
    requires '\n' !in lang
    requires Retry.RetryOutcome(first, true) == Success(Fenced(lang, body))
    requires parse(body) == Parsed(JObj(fields))
    ensures AnalyzeContextPointer(first, second, parse) == AnalysisRun(Normalise(fields), false)
  {
    FencedReply(lang, body);
  }
}
