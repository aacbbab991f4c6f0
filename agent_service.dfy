/**
 * The conversational agent service: the prompt text built from a project's
 * context pointers, the chat messages built from a session's history, and
 * the reply `query_agent` returns, with every way it falls back.
 *
 * The model call is an oracle: given the chat history and the text sent,
 * it yields the outcome of each attempt of the retry loop. The JSON parser
 * is the abstract `parse` of `JsonValue`.
 */
module AgentService {
  import opened Wrappers
  import opened Text
  import opened JsonText
  import opened JsonValue
  import ContextData
  import Retry

  /** One committed context pointer as the router hands it to the prompt builder. */
  datatype PromptPointer = PromptPointer(
    id: string,
    sheetId: string,
    sheetName: string,
    pageNumber: nat,
    title: string,
    description: Option<string>,
    trade: Option<string>,
    technicalDescription: Option<string>,
    elements: Json,
    recommendations: Option<string>)

  /** The prompt text for a project without committed pointers. */
  const NoPointers: string := "<no_pointers>No context pointers available for this project.</no_pointers>"

  const CloseTag: string := "</pointer>"

  function OpenTag(id: string): string {
    "<pointer id=\"" + id + "\">"
  }

  /** `p.get('description') or 'No description'` */
  function DescriptionText(d: Option<string>): (r: string)
    ensures r != ""
    ensures Filled(d) <==> r == d.GetOr("") && d.Some?
  {
    if Filled(d) then d.value else "No description"
  }

  /**
   * How names that are not strings are treated when the Elements line is
   * joined: as written they reach `', '.join` and raise; the corrected
   * formatter keeps only string names.
   */
  datatype NameMode = AsWritten | StringsOnly

  /** The name one element contributes: a string element itself, or the `name` of an object that has one. */
  function NameOf(el: Json, mode: NameMode): (r: seq<Json>)
    ensures |r| <= 1
    ensures el.JStr? ==> r == [el]
    ensures mode == StringsOnly ==> forall k :: 0 <= k < |r| ==> r[k].JStr?
    ensures !el.JStr? && !el.JObj? ==> r == []
  {
    match el
    case JStr(_) => [el]
    case JObj(f) => if "name" in f && (mode == AsWritten || f["name"].JStr?) then [f["name"]] else []
    case _ => []
  }

  /** The names listed on the Elements line, in element order. */
  function ElementNames(items: seq<Json>, mode: NameMode): (r: seq<Json>)
    ensures |r| <= |items|
    ensures mode == StringsOnly ==> forall k :: 0 <= k < |r| ==> r[k].JStr?
  {
    if items == [] then []
    else ElementNames(items[..|items| - 1], mode) + NameOf(items[|items| - 1], mode)
  }

  /** The names of a concatenation are the names of each part. */
  lemma {:induction false} ElementNamesAppend(a: seq<Json>, b: seq<Json>, mode: NameMode)
    ensures ElementNames(a + b, mode) == ElementNames(a, mode) + ElementNames(b, mode)
    decreases |b|
  {
    if b != [] {
      var b' := b[..|b| - 1];
      assert (a + b)[..|a + b| - 1] == a + b';
      ElementNamesAppend(a, b', mode);
    } else {
      assert a + b == a;
    }
  }

  /** A list of strings is listed as it is. */
  lemma {:induction false} ElementNamesOfStrings(items: seq<Json>, mode: NameMode)
    requires forall k :: 0 <= k < |items| ==> items[k].JStr?
    ensures ElementNames(items, mode) == items
    decreases |items|
  {
    if items != [] {
      ElementNamesOfStrings(items[..|items| - 1], mode);
    }
  }

  /** Elements that are neither strings nor objects are skipped. */
  lemma {:induction false} ElementNamesSkipScalars(items: seq<Json>, mode: NameMode)
    requires forall k :: 0 <= k < |items| ==> !items[k].JStr? && !items[k].JObj?
    ensures ElementNames(items, mode) == []
    decreases |items|
  {
    if items != [] {
      ElementNamesSkipScalars(items[..|items| - 1], mode);
    }
  }

  /** The index of the first name that is not a string, if any. */
  function FirstNonString(names: seq<Json>): (r: Option<nat>)
    ensures r.None? <==> forall k :: 0 <= k < |names| ==> names[k].JStr?
    ensures r.Some? ==> r.value < |names| && !names[r.value].JStr?
    ensures r.Some? ==> forall k :: 0 <= k < r.value ==> names[k].JStr?
  {
    if names == [] then None
    else if !names[0].JStr? then Some(0)
    else match FirstNonString(names[1..])
      case None => None
      case Some(k) => Some(k + 1)
  }

  /** The texts of names that are all strings. */
  function Texts(names: seq<Json>): (r: seq<string>)
    requires forall k :: 0 <= k < |names| ==> names[k].JStr?
    ensures |r| == |names| && forall k :: 0 <= k < |names| ==> r[k] == names[k].s
  {
    seq(|names|, k requires 0 <= k < |names| => names[k].s)
  }

  /** `', '.join(names)`: the joined text, or the message of the `TypeError` raised at the first non-string. */
  function JoinNames(names: seq<Json>): (r: Result<string, string>)
    ensures r.Success? <==> forall k :: 0 <= k < |names| ==> names[k].JStr?
    ensures r.Failure? ==> exists k :: 0 <= k < |names| && r.error == JoinTypeError(k, names[k])
  {
    match FirstNonString(names)
    case None => Success(Join(Texts(names), ", "))
    case Some(k) => Failure(JoinTypeError(k, names[k]))
  }

  /** The pointer's element list holds a name that `', '.join` refuses. */
  predicate BadNames(p: PromptPointer, mode: NameMode) {
    p.elements.JArr? && exists k :: 0 <= k < |ElementNames(p.elements.items, mode)| && !ElementNames(p.elements.items, mode)[k].JStr?
  }

  /** The line of an optional field: present only when the field is truthy. */
  function OptLine(tag: string, o: Option<string>): (r: seq<string>)
    ensures |r| <= 1
  {
    if Filled(o) then [tag + o.value] else []
  }

  /** The Elements line, if any, or the error raised while joining it. */
  function ElementsLine(elements: Json, mode: NameMode): (r: Result<seq<string>, string>)
    ensures r.Success? ==> |r.value| <= 1
  {
    if !Truthy(elements) || !elements.JArr? then Success([])
    else
      var names := ElementNames(elements.items, mode);
      if names == [] then Success([])
      else match JoinNames(names)
        case Success(t) => Success(["Elements: " + t])
        case Failure(m) => Failure(m)
  }

  /** The five lines every block has. */
  function Header(p: PromptPointer): seq<string> {
    [OpenTag(p.id),
     "Sheet: " + p.sheetName + " (" + p.sheetId + ")",
     "Page: " + ContextData.NatToString(p.pageNumber),
     "Title: " + p.title,
     "Description: " + DescriptionText(p.description)]
  }

  /** The lines of one pointer's block. */
  function PointerLines(p: PromptPointer, mode: NameMode): Result<seq<string>, string> {
    match ElementsLine(p.elements, mode)
    case Failure(m) => Failure(m)
    case Success(el) =>
      Success(Header(p) + OptLine("Trade: ", p.trade) + OptLine("AI Analysis: ", p.technicalDescription)
              + el + OptLine("Recommendations: ", p.recommendations) + [CloseTag])
  }

  /** A block's lines fail exactly on unjoinable names; otherwise six to ten lines from the open tag to the close tag. */
  lemma PointerLinesShape(p: PromptPointer, mode: NameMode)
    ensures PointerLines(p, mode).Failure? <==> BadNames(p, mode)
    ensures PointerLines(p, mode).Success? ==>
      var lines := PointerLines(p, mode).value;
      6 <= |lines| <= 10 && lines[0] == OpenTag(p.id) && lines[|lines| - 1] == CloseTag
  {
  }

  /** Some line starts with `pre`. */
  predicate HasLine(lines: seq<string>, pre: string) {
    exists k :: 0 <= k < |lines| && StartsWith(lines[k], pre)
  }

  lemma HasLineAppend(a: seq<string>, b: seq<string>, pre: string)
    ensures HasLine(a + b, pre) <==> HasLine(a, pre) || HasLine(b, pre)
  {
    if HasLine(a + b, pre) {
      var k :| 0 <= k < |a + b| && StartsWith((a + b)[k], pre);
      if k < |a| {
        assert StartsWith(a[k], pre);
      } else {
        assert StartsWith(b[k - |a|], pre);
      }
    }
    if HasLine(a, pre) {
      var k :| 0 <= k < |a| && StartsWith(a[k], pre);
      assert StartsWith((a + b)[k], pre);
    }
    if HasLine(b, pre) {
      var k :| 0 <= k < |b| && StartsWith(b[k], pre);
      assert StartsWith((a + b)[|a| + k], pre);
    }
  }

  /** Lines that differ from `pre` at position `i` do not start with it. */
  lemma NoLineWith(lines: seq<string>, pre: string, i: nat)
    requires i < |pre|
    requires forall k :: 0 <= k < |lines| ==> i < |lines[k]| && lines[k][i] != pre[i]
    ensures !HasLine(lines, pre)
  {
    forall k | 0 <= k < |lines|
      ensures !StartsWith(lines[k], pre)
    {
      assert |pre| <= |lines[k]| ==> lines[k][..|pre|][i] == lines[k][i];
    }
  }

  /** A present optional line starts with its tag, and an absent one is not there. */
  lemma OptLinePresence(tag: string, o: Option<string>)
    ensures HasLine(OptLine(tag, o), tag) <==> Filled(o)
  {
    if Filled(o) {
      var line := tag + o.value;
      assert line[..|tag|] == tag;
      assert OptLine(tag, o)[0] == line;
    }
  }

  /** An optional line whose tag differs from `pre` in its first two characters is not a `pre` line. */
  lemma OptLineOther(tag: string, o: Option<string>, pre: string)
    requires |tag| >= 2 && |pre| >= 2 && (tag[0] != pre[0] || tag[1] != pre[1])
    ensures !HasLine(OptLine(tag, o), pre)
  {
    if Filled(o) {
      var line := tag + o.value;
      assert line[0] == tag[0] && line[1] == tag[1];
      if tag[0] != pre[0] {
        NoLineWith(OptLine(tag, o), pre, 0);
      } else {
        NoLineWith(OptLine(tag, o), pre, 1);
      }
    }
  }

  /** The header lines start with `<p`, `Sh`, `Pa`, `Ti` and `De`. */
  lemma HeaderOther(p: PromptPointer, pre: string)
    requires |pre| >= 2 && pre[0] != '<' && pre[0] != 'S' && pre[0] != 'P' && pre[0] != 'D'
    requires pre[0] != 'T' || pre[1] != 'i'
    ensures !HasLine(Header(p), pre)
  {
    var h := Header(p);
    assert h[0][0] == '<' && h[1][0] == 'S' && h[2][0] == 'P' && h[3][0] == 'T' && h[4][0] == 'D';
    assert h[3][1] == 'i';
    forall k | 0 <= k < |h|
      ensures !StartsWith(h[k], pre)
    {
      assert |pre| <= |h[k]| ==> h[k][..|pre|][0] == h[k][0] && h[k][..|pre|][1] == h[k][1];
    }
  }

  /** The closing tag is not a `pre` line for a `pre` that does not start with `<`. */
  lemma CloseOther(pre: string)
    requires |pre| >= 1 && pre[0] != '<'
    ensures !HasLine([CloseTag], pre)
  {
    NoLineWith([CloseTag], pre, 0);
  }

  /** The Elements line, when there, starts with `Elements: `. */
  lemma ElementsLineShape(elements: Json, mode: NameMode)
    requires ElementsLine(elements, mode).Success?
    ensures HasLine(ElementsLine(elements, mode).value, "Elements: ") <==>
      elements.JArr? && ElementNames(elements.items, mode) != []
    ensures forall pre :: |pre| >= 1 && pre[0] != 'E' ==> !HasLine(ElementsLine(elements, mode).value, pre)
  {
    var e := ElementsLine(elements, mode).value;
    if e != [] {
      assert e[0][..|"Elements: "|] == "Elements: ";
      forall pre | |pre| >= 1 && pre[0] != 'E'
        ensures !HasLine(e, pre)
      {
        assert e[0][0] == 'E';
        NoLineWith(e, pre, 0);
      }
    }
  }

  /** A `pre` line of a block comes from one of its six pieces. */
  lemma HasLineSix(h: seq<string>, t: seq<string>, a: seq<string>, e: seq<string>, rc: seq<string>, c: seq<string>,
                   pre: string)
    ensures HasLine(h + t + a + e + rc + c, pre) <==>
      HasLine(h, pre) || HasLine(t, pre) || HasLine(a, pre) || HasLine(e, pre) || HasLine(rc, pre) || HasLine(c, pre)
  {
    HasLineAppend(h + t + a + e + rc, c, pre);
    HasLineAppend(h + t + a + e, rc, pre);
    HasLineAppend(h + t + a, e, pre);
    HasLineAppend(h + t, a, pre);
    HasLineAppend(h, t, pre);
  }

  /** The pieces a successful block is made of. */
  lemma LinesPieces(p: PromptPointer, mode: NameMode)
    requires PointerLines(p, mode).Success?
    ensures ElementsLine(p.elements, mode).Success?
    ensures PointerLines(p, mode).value ==
      Header(p) + OptLine("Trade: ", p.trade) + OptLine("AI Analysis: ", p.technicalDescription)
      + ElementsLine(p.elements, mode).value + OptLine("Recommendations: ", p.recommendations) + [CloseTag]
  {
  }

  lemma TradePresence(p: PromptPointer, mode: NameMode)
    requires PointerLines(p, mode).Success?
    ensures HasLine(PointerLines(p, mode).value, "Trade: ") <==> Filled(p.trade)
  {
    LinesPieces(p, mode);
    var pre := "Trade: ";
    HasLineSix(Header(p), OptLine(pre, p.trade), OptLine("AI Analysis: ", p.technicalDescription),
               ElementsLine(p.elements, mode).value, OptLine("Recommendations: ", p.recommendations), [CloseTag], pre);
    HeaderOther(p, pre);
    OptLinePresence(pre, p.trade);
    OptLineOther("AI Analysis: ", p.technicalDescription, pre);
    ElementsLineShape(p.elements, mode);
    OptLineOther("Recommendations: ", p.recommendations, pre);
    CloseOther(pre);
  }

  lemma AnalysisPresence(p: PromptPointer, mode: NameMode)
    requires PointerLines(p, mode).Success?
    ensures HasLine(PointerLines(p, mode).value, "AI Analysis: ") <==> Filled(p.technicalDescription)
  {
    LinesPieces(p, mode);
    var pre := "AI Analysis: ";
    HasLineSix(Header(p), OptLine("Trade: ", p.trade), OptLine(pre, p.technicalDescription),
               ElementsLine(p.elements, mode).value, OptLine("Recommendations: ", p.recommendations), [CloseTag], pre);
    HeaderOther(p, pre);
    OptLineOther("Trade: ", p.trade, pre);
    OptLinePresence(pre, p.technicalDescription);
    ElementsLineShape(p.elements, mode);
    OptLineOther("Recommendations: ", p.recommendations, pre);
    CloseOther(pre);
  }

  lemma RecommendationsPresence(p: PromptPointer, mode: NameMode)
    requires PointerLines(p, mode).Success?
    ensures HasLine(PointerLines(p, mode).value, "Recommendations: ") <==> Filled(p.recommendations)
  {
    LinesPieces(p, mode);
    var pre := "Recommendations: ";
    HasLineSix(Header(p), OptLine("Trade: ", p.trade), OptLine("AI Analysis: ", p.technicalDescription),
               ElementsLine(p.elements, mode).value, OptLine(pre, p.recommendations), [CloseTag], pre);
    HeaderOther(p, pre);
    OptLineOther("Trade: ", p.trade, pre);
    OptLineOther("AI Analysis: ", p.technicalDescription, pre);
    ElementsLineShape(p.elements, mode);
    OptLinePresence(pre, p.recommendations);
    CloseOther(pre);
  }

  lemma ElementsPresence(p: PromptPointer, mode: NameMode)
    requires PointerLines(p, mode).Success?
    ensures HasLine(PointerLines(p, mode).value, "Elements: ") <==>
      p.elements.JArr? && ElementNames(p.elements.items, mode) != []
  {
    LinesPieces(p, mode);
    var pre := "Elements: ";
    HasLineSix(Header(p), OptLine("Trade: ", p.trade), OptLine("AI Analysis: ", p.technicalDescription),
               ElementsLine(p.elements, mode).value, OptLine("Recommendations: ", p.recommendations), [CloseTag], pre);
    HeaderOther(p, pre);
    OptLineOther("Trade: ", p.trade, pre);
    OptLineOther("AI Analysis: ", p.technicalDescription, pre);
    ElementsLineShape(p.elements, mode);
    OptLineOther("Recommendations: ", p.recommendations, pre);
    CloseOther(pre);
  }

  /**
   * Which optional lines a block holds: Trade, AI Analysis and
   * Recommendations exactly when their field is truthy, Elements exactly
   * when the field is a list with something to name.
   */
  lemma LinePresence(p: PromptPointer, mode: NameMode)
    requires PointerLines(p, mode).Success?
    ensures HasLine(PointerLines(p, mode).value, "Trade: ") <==> Filled(p.trade)
    ensures HasLine(PointerLines(p, mode).value, "AI Analysis: ") <==> Filled(p.technicalDescription)
    ensures HasLine(PointerLines(p, mode).value, "Recommendations: ") <==> Filled(p.recommendations)
    ensures HasLine(PointerLines(p, mode).value, "Elements: ") <==>
      p.elements.JArr? && ElementNames(p.elements.items, mode) != []
  {
    TradePresence(p, mode);
    AnalysisPresence(p, mode);
    RecommendationsPresence(p, mode);
    ElementsPresence(p, mode);
  }

  /** A joined list starts with its first part and ends with its last. */
  lemma {:induction false} JoinEnds(parts: seq<string>, sep: string)
    requires parts != []
    ensures StartsWith(Join(parts, sep), parts[0])
    ensures EndsWith(Join(parts, sep), parts[|parts| - 1])
    decreases |parts|
  {
    if |parts| > 1 {
      var rest := Join(parts[1..], sep);
      JoinEnds(parts[1..], sep);
      var s := parts[0] + sep + rest;
      assert s[..|parts[0]|] == parts[0];
      var last := parts[|parts| - 1];
      assert s[|s| - |last|..] == rest[|rest| - |last|..];
    }
  }

  /** One pointer's block: its lines joined by newlines. */
  function Block(p: PromptPointer, mode: NameMode): Result<string, string> {
    match PointerLines(p, mode)
    case Failure(m) => Failure(m)
    case Success(lines) => Success(Join(lines, "\n"))
  }

  /** A block fails exactly on unjoinable names; otherwise it runs from the open tag to the close tag. */
  lemma BlockShape(p: PromptPointer, mode: NameMode)
    ensures Block(p, mode).Failure? <==> BadNames(p, mode)
    ensures Block(p, mode).Success? ==>
      StartsWith(Block(p, mode).value, OpenTag(p.id)) && EndsWith(Block(p, mode).value, CloseTag)
  {
    PointerLinesShape(p, mode);
    if PointerLines(p, mode).Success? {
      JoinEnds(PointerLines(p, mode).value, "\n");
    }
  }

  /** The blocks of a list of pointers, in order; the first pointer whose names cannot be joined stops it. */
  function Blocks(ps: seq<PromptPointer>, mode: NameMode): (r: Result<seq<string>, string>)
    ensures r.Success? ==> |r.value| == |ps|
  {
    if ps == [] then Success([])
    else
      match Blocks(ps[..|ps| - 1], mode)
      case Failure(m) => Failure(m)
      case Success(bs) =>
        match Block(ps[|ps| - 1], mode)
        case Failure(m) => Failure(m)
        case Success(b) => Success(bs + [b])
  }

  /** The last pointer's block comes after the blocks of the others. */
  lemma BlocksSnoc(ps: seq<PromptPointer>, mode: NameMode)
    requires ps != []
    ensures Blocks(ps, mode).Failure? <==> Blocks(ps[..|ps| - 1], mode).Failure? || Block(ps[|ps| - 1], mode).Failure?
    ensures Blocks(ps, mode).Success? ==>
      Blocks(ps, mode).value == Blocks(ps[..|ps| - 1], mode).value + [Block(ps[|ps| - 1], mode).value]
  {
  }

  /** Block `i` of a successful list is the block of pointer `i`. */
  lemma {:induction false} BlocksAt(ps: seq<PromptPointer>, mode: NameMode, i: nat)
    requires Blocks(ps, mode).Success? && i < |ps|
    ensures Block(ps[i], mode) == Success(Blocks(ps, mode).value[i])
    decreases |ps|
  {
    var prefix := ps[..|ps| - 1];
    BlocksSnoc(ps, mode);
    if i < |prefix| {
      BlocksAt(prefix, mode, i);
      assert prefix[i] == ps[i];
    }
    SnocAt(Blocks(prefix, mode).value, Block(ps[|ps| - 1], mode).value, i);
  }

  /** Element `i` of a list with one more element at its end. */
  lemma SnocAt(bs: seq<string>, b: string, i: nat)
    requires i <= |bs|
    ensures i < |bs| ==> (bs + [b])[i] == bs[i]
    ensures i == |bs| ==> (bs + [b])[i] == b
  {
  }

  /** Some pointer's element names cannot be joined. */
  predicate AnyBadNames(ps: seq<PromptPointer>, mode: NameMode) {
    exists i :: 0 <= i < |ps| && BadNames(ps[i], mode)
  }

  lemma AnyBadNamesSnoc(ps: seq<PromptPointer>, mode: NameMode)
    requires ps != []
    ensures AnyBadNames(ps, mode) <==> AnyBadNames(ps[..|ps| - 1], mode) || BadNames(ps[|ps| - 1], mode)
  {
    var prefix := ps[..|ps| - 1];
    assert forall i :: 0 <= i < |prefix| ==> prefix[i] == ps[i];
    if AnyBadNames(ps, mode) && !BadNames(ps[|ps| - 1], mode) {
      var i :| 0 <= i < |ps| && BadNames(ps[i], mode);
      assert BadNames(prefix[i], mode);
    }
  }

  /** The blocks fail exactly when some pointer's element names cannot be joined. */
  lemma {:induction false} BlocksFailIff(ps: seq<PromptPointer>, mode: NameMode)
    ensures Blocks(ps, mode).Failure? <==> AnyBadNames(ps, mode)
    decreases |ps|
  {
    if ps != [] {
      BlocksFailIff(ps[..|ps| - 1], mode);
      BlocksSnoc(ps, mode);
      BlockShape(ps[|ps| - 1], mode);
      AnyBadNamesSnoc(ps, mode);
    }
  }

  /** Once a prefix fails, the whole list fails with the same error. */
  lemma {:induction false} BlocksFailureStays(ps: seq<PromptPointer>, n: nat, mode: NameMode)
    requires n <= |ps| && Blocks(ps[..n], mode).Failure?
    ensures Blocks(ps, mode) == Blocks(ps[..n], mode)
    decreases |ps| - n
  {
    if n < |ps| {
      assert ps[..n + 1][..n] == ps[..n];
      BlocksFailureStays(ps, n + 1, mode);
    } else {
      assert ps[..n] == ps;
    }
  }

  /**
   * The prompt text: the fixed no-pointers text for an empty list, the
   * blocks joined by blank lines otherwise, or the error raised while
   * building a block.
   */
  function Prompt(ps: seq<PromptPointer>, mode: NameMode): (r: Result<string, string>)
    ensures ps == [] ==> r == Success(NoPointers)
    ensures r.Failure? <==> AnyBadNames(ps, mode)
    ensures r.Success? && ps != [] ==> StartsWith(r.value, OpenTag(ps[0].id)) && EndsWith(r.value, CloseTag)
  {
    BlocksFailIff(ps, mode);
    if ps == [] then Success(NoPointers)
    else match Blocks(ps, mode)
      case Failure(m) => Failure(m)
      case Success(bs) =>
        BlocksAt(ps, mode, 0);
        BlocksAt(ps, mode, |ps| - 1);
        BlockShape(ps[0], mode);
        BlockShape(ps[|ps| - 1], mode);
        JoinEnds(bs, "\n\n");
        StartsTrans(Join(bs, "\n\n"), bs[0], OpenTag(ps[0].id));
        EndsTrans(Join(bs, "\n\n"), bs[|bs| - 1], CloseTag);
        Success(Join(bs, "\n\n"))
  }

  lemma StartsTrans(s: string, t: string, u: string)
    requires StartsWith(s, t) && StartsWith(t, u)
    ensures StartsWith(s, u)
  {
    assert s[..|u|] == s[..|t|][..|u|];
  }

  lemma EndsTrans(s: string, t: string, u: string)
    requires EndsWith(s, t) && EndsWith(t, u)
    ensures EndsWith(s, u)
  {
    assert s[|s| - |u|..] == s[|s| - |t|..][|t| - |u|..];
  }

  /** The corrected formatter never raises, whatever the elements hold. */
  lemma StringsOnlyNeverRaises(ps: seq<PromptPointer>)
    ensures Prompt(ps, StringsOnly).Success?
  {
    forall i | 0 <= i < |ps|
      ensures !BadNames(ps[i], StringsOnly)
    {
      if ps[i].elements.JArr? {
        var names := ElementNames(ps[i].elements.items, StringsOnly);
        assert forall k :: 0 <= k < |names| ==> names[k].JStr?;
      }
    }
  }

  /** An object element whose name is `null` makes the formatter as written raise a `TypeError`. */
  lemma NullNameRaises(p: PromptPointer)
    requires p.elements == JArr([JObj(map["name" := JNull])])
    ensures Prompt([p], AsWritten) == Failure(JoinTypeError(0, JNull))
    ensures Prompt([p], StringsOnly).Success?
  {
    var names := ElementNames(p.elements.items, AsWritten);
    assert names == [JNull];
    assert ContextData.NatToString(0) == "0";
    assert FirstNonString(names) == Some(0);
    assert JoinNames(names) == Failure(JoinTypeError(0, JNull));
    assert Truthy(p.elements);
    assert ElementsLine(p.elements, AsWritten) == Failure(JoinTypeError(0, JNull));
    assert Blocks([p][..0], AsWritten) == Success([]);
    StringsOnlyNeverRaises([p]);
  }

  /** `format_pointers_for_prompt`, as written. */
  method FormatPointersForPrompt(pointers: seq<PromptPointer>) returns (r: Result<string, string>)
    ensures r == Prompt(pointers, AsWritten)
  {
    if pointers == [] {
      return Success(NoPointers);
    }
    var blocks: seq<string> := [];
    for i := 0 to |pointers|
      invariant Blocks(pointers[..i], AsWritten) == Success(blocks)
    {
      var b := PointerBlock(pointers[i]);
      assert pointers[..i + 1][..i] == pointers[..i];
      if b.Failure? {
        BlocksFailureStays(pointers, i + 1, AsWritten);
        return Failure(b.error);
      }
      blocks := blocks + [b.value];
    }
    assert pointers[..|pointers|] == pointers;
    r := Success(Join(blocks, "\n\n"));
  }

  /** One pointer's block, built line by line. */
  method PointerBlock(p: PromptPointer) returns (r: Result<string, string>)
    ensures r == Block(p, AsWritten)
  {
    var parts := Header(p);
    if Filled(p.trade) {
      parts := parts + ["Trade: " + p.trade.value];
    }
    assert parts == Header(p) + OptLine("Trade: ", p.trade);
    if Filled(p.technicalDescription) {
      parts := parts + ["AI Analysis: " + p.technicalDescription.value];
    }
    assert parts == Header(p) + OptLine("Trade: ", p.trade) + OptLine("AI Analysis: ", p.technicalDescription);
    ghost var before := parts;
    if Truthy(p.elements) && p.elements.JArr? {
      var names := CollectNames(p.elements.items);
      if names != [] {
        var joined := JoinNames(names);
        if joined.Failure? {
          return Failure(joined.error);
        }
        parts := parts + ["Elements: " + joined.value];
      }
    }
    assert parts == before + ElementsLine(p.elements, AsWritten).value;
    if Filled(p.recommendations) {
      parts := parts + ["Recommendations: " + p.recommendations.value];
    }
    assert parts == before + ElementsLine(p.elements, AsWritten).value + OptLine("Recommendations: ", p.recommendations);
    parts := parts + [CloseTag];
    assert parts == PointerLines(p, AsWritten).value;
    r := Success(Join(parts, "\n"));
  }

  /** The element names of a list, collected one element at a time. */
  method CollectNames(items: seq<Json>) returns (names: seq<Json>)
    ensures names == ElementNames(items, AsWritten)
  {
    names := [];
    for i := 0 to |items|
      invariant names == ElementNames(items[..i], AsWritten)
    {
      assert items[..i + 1][..i] == items[..i];
      match items[i]
      case JStr(_) =>
        names := names + [items[i]];
      case JObj(f) =>
        if "name" in f {
          names := names + [f["name"]];
        }
      case _ =>
    }
    assert items[..|items|] == items;
  }

  // ---------------------------------------------------------------------
  // Chat messages

  /** A prior message of the session: its role and its text. */
  datatype ChatEntry = ChatEntry(role: string, content: string)

  /** A message of the model's chat: its role and its parts. */
  datatype ChatMessage = ChatMessage(role: string, parts: seq<string>)

  /** Only "user" stays "user"; every other role is the model's. */
  function ChatRole(role: string): (r: string)
    ensures r == "user" || r == "model"
    ensures r == "user" <==> role == "user"
  {
    if role == "user" then "user" else "model"
  }

  /** The text sent for the current question. */
  function QueryText(query: string, pointersText: string): string {
    QuestionHead + query + PointersHead + pointersText + Instructions
  }

  const QuestionHead: string := "SUPERINTENDENT'S QUESTION:\n\""
  const PointersHead: string := "\"\n\nCONTEXT POINTERS FROM PROJECT PLANS:\n"
  const Instructions: string :=
    "\n\nFind the relevant pointers, provide a concise answer, and explain where to find the information."

  /** `sub` occurs in `pre + sub + post`. */
  lemma ContainsMiddle(pre: string, sub: string, post: string)
    ensures Contains(pre + sub + post, sub)
  {
    var s := pre + sub + post;
    assert s[|pre|..][..|sub|] == sub;
    ContainsAt(s, sub, |pre|);
  }

  /** The question text carries both the question and the pointers. */
  lemma QueryTextMentions(query: string, pointersText: string)
    ensures Contains(QueryText(query, pointersText), query)
    ensures Contains(QueryText(query, pointersText), pointersText)
  {
    var rest := PointersHead + pointersText + Instructions;
    assert QueryText(query, pointersText) == QuestionHead + query + rest;
    ContainsMiddle(QuestionHead, query, rest);
    assert QueryText(query, pointersText) == (QuestionHead + query + PointersHead) + pointersText + Instructions;
    ContainsMiddle(QuestionHead + query + PointersHead, pointersText, Instructions);
  }

  /** The session's prior messages as chat messages, in order. */
  function Converted(history: seq<ChatEntry>): (r: seq<ChatMessage>)
    ensures |r| == |history|
    ensures forall i :: 0 <= i < |history| ==>
      r[i].role == ChatRole(history[i].role) && r[i].parts == [history[i].content]
  {
    if history == [] then []
    else
      var last := history[|history| - 1];
      Converted(history[..|history| - 1]) + [ChatMessage(ChatRole(last.role), [last.content])]
  }

  /** `build_messages`: the history, then the question with the pointers. */
  function Messages(query: string, history: seq<ChatEntry>, pointersText: string): (r: seq<ChatMessage>)
    ensures |r| == |history| + 1
    ensures forall i :: 0 <= i < |r| ==> |r[i].parts| == 1
    ensures forall i :: 0 <= i < |history| ==> (r[i].role == "user" <==> history[i].role == "user")
    ensures r[|history|] == ChatMessage("user", [QueryText(query, pointersText)])
  {
    Converted(history) + [ChatMessage("user", [QueryText(query, pointersText)])]
  }

  /** `build_messages`, appending one message at a time. */
  method BuildMessages(query: string, history: seq<ChatEntry>, pointersText: string) returns (messages: seq<ChatMessage>)
    ensures messages == Messages(query, history, pointersText)
  {
    messages := [];
    for i := 0 to |history|
      invariant messages == Converted(history[..i])
    {
      assert history[..i + 1][..i] == history[..i];
      var role := if history[i].role == "user" then "user" else "model";
      messages := messages + [ChatMessage(role, [history[i].content])];
    }
    assert history[..|history|] == history;
    messages := messages + [ChatMessage("user", [QueryText(query, pointersText)])];
  }

  /** `messages[:-1] if len(messages) > 1 else []`: the history the chat is started with. */
  function ChatHistory(messages: seq<ChatMessage>): seq<ChatMessage> {
    if |messages| > 1 then messages[..|messages| - 1] else []
  }

  /** `messages[-1]["parts"][0]`: the text sent. */
  function SentText(messages: seq<ChatMessage>): string
    requires messages != [] && messages[|messages| - 1].parts != []
  {
    messages[|messages| - 1].parts[0]
  }

  /** The chat is started with every message but the last, and the last one's text is sent. */
  lemma SentMessages(query: string, history: seq<ChatEntry>, pointersText: string)
    ensures ChatHistory(Messages(query, history, pointersText)) == Converted(history)
    ensures SentText(Messages(query, history, pointersText)) == QueryText(query, pointersText)
  {
    var m := Messages(query, history, pointersText);
    assert m[..|m| - 1] == Converted(history);
  }

  // ---------------------------------------------------------------------
  // The agent's reply

  /** The reply: exactly the three fields the router reads. */
  datatype AgentReply = AgentReply(shortAnswer: Json, narrative: Json, selectedPointers: Json)

  /** `_get_fallback_response`: an apology that carries the message, and no pointers. */
  function Fallback(message: string): (r: AgentReply)
    ensures r.selectedPointers == JArr([])
    ensures r.shortAnswer == JStr("I encountered an issue processing your question.")
    ensures r.narrative.JStr? && Contains(r.narrative.s, message)
  {
    ContainsMiddle("There was a problem: ", message, ". Please try again or rephrase your question.");
    AgentReply(JStr("I encountered an issue processing your question."),
               JStr("There was a problem: " + message + ". Please try again or rephrase your question."),
               JArr([]))
  }

  /** The reply built from a parsed value: its three fields with their defaults, or the fallback for `.get` on a non-object. */
  function ReplyOf(j: Json): (r: AgentReply)
    ensures j.JObj? ==> r.shortAnswer == Get(j.fields, "shortAnswer", JStr(""))
    ensures j.JObj? ==> r.narrative == Get(j.fields, "narrative", JStr(""))
    ensures j.JObj? ==> r.selectedPointers == Get(j.fields, "selectedPointers", JArr([]))
    ensures !j.JObj? ==> r == Fallback(NoGetMessage(j))
  {
    match j
    case JObj(f) =>
      AgentReply(Get(f, "shortAnswer", JStr("")), Get(f, "narrative", JStr("")), Get(f, "selectedPointers", JArr([])))
    case _ => Fallback(NoGetMessage(j))
  }

  /**
   * What the guarded part of `query_agent` returns for the result of the
   * retried model call: a failure, an empty reply, a parse error and a
   * non-object all end in the fallback.
   */
  function Answer(out: Result<string, Retry.ApiError>, parse: string -> ParseOutcome): (r: AgentReply)
    ensures out.Failure? ==> r == Fallback(out.error.message)
    ensures out.Success? && Strip(out.value) == "" ==> r == Fallback("Empty response from Gemini")
    ensures r.selectedPointers != JArr([]) ==>
      out.Success? && Strip(out.value) != "" && parse(FenceFreeReply(out.value)).Parsed?
      && parse(FenceFreeReply(out.value)).value.JObj?
      && "selectedPointers" in parse(FenceFreeReply(out.value)).value.fields
      && r.selectedPointers == parse(FenceFreeReply(out.value)).value.fields["selectedPointers"]
  {
    if out.Failure? then Fallback(out.error.message)
    else if Strip(out.value) == "" then Fallback("Empty response from Gemini")
    else
      match parse(FenceFreeReply(out.value))
      case DecodeError(_, message) => Fallback("Failed to parse response: " + message)
      case Parsed(j) => ReplyOf(j)
  }

  /** A reply that does not parse falls back with the decoder's message. */
  lemma AnswerOfUnparsable(reply: string, parse: string -> ParseOutcome)
    requires Strip(reply) != "" && parse(FenceFreeReply(reply)).DecodeError?
    ensures Answer(Success(reply), parse) == Fallback("Failed to parse response: " + parse(FenceFreeReply(reply)).message)
    ensures Answer(Success(reply), parse).selectedPointers == JArr([])
  {
  }

  /** A reply that parses is read through `ReplyOf`. */
  lemma AnswerOfParsed(reply: string, parse: string -> ParseOutcome)
    requires Strip(reply) != "" && parse(FenceFreeReply(reply)).Parsed?
    ensures Answer(Success(reply), parse) == ReplyOf(parse(FenceFreeReply(reply)).value)
  {
  }

  /** A fenced object reply is read from its body. */
  lemma AnswerOfFencedReply(lang: string, body: string, fields: map<string, Json>, parse: string -> ParseOutcome)
    requires '\n' !in lang
    requires parse(body) == Parsed(JObj(fields))
    ensures Answer(Success(Fenced(lang, body)), parse) == ReplyOf(JObj(fields))
  {
    var t := Fenced(lang, body);
    FencedReply(lang, body);
    AnswerOfParsed(t, parse);
  }

  /**
   * `query_agent`. Without an API key it falls back at once; building the
   * prompt happens outside the guarded block, so its error is raised (the
   * `Failure`); everything else ends in a reply.
   */
  function QueryAgent(configured: bool, query: string, history: seq<ChatEntry>, pointers: seq<PromptPointer>,
                      mode: NameMode, chat: (seq<ChatMessage>, string) -> (nat -> Retry.Outcome<string>),
                      parse: string -> ParseOutcome): (r: Result<AgentReply, string>)
    ensures !configured ==> r == Success(Fallback("API key not configured"))
    ensures r.Failure? <==> configured && AnyBadNames(pointers, mode)
  {
    if !configured then Success(Fallback("API key not configured"))
    else
      match Prompt(pointers, mode)
      case Failure(m) => Failure(m)
      case Success(text) =>
        var messages := Messages(query, history, text);
        Success(Answer(Retry.RetryOutcome(chat(ChatHistory(messages), SentText(messages)), true), parse))
  }

  /**
   * The model sees only the converted history and the question text: two
   * chats that answer those alike give the same reply.
   */
  lemma QueryAgentSeesHistory(configured: bool, query: string, history: seq<ChatEntry>, pointers: seq<PromptPointer>,
                              mode: NameMode, chat1: (seq<ChatMessage>, string) -> (nat -> Retry.Outcome<string>),
                              chat2: (seq<ChatMessage>, string) -> (nat -> Retry.Outcome<string>),
                              parse: string -> ParseOutcome)
    requires Prompt(pointers, mode).Success?
    requires chat1(Converted(history), QueryText(query, Prompt(pointers, mode).value))
          == chat2(Converted(history), QueryText(query, Prompt(pointers, mode).value))
    ensures QueryAgent(configured, query, history, pointers, mode, chat1, parse)
         == QueryAgent(configured, query, history, pointers, mode, chat2, parse)
  {
    SentMessages(query, history, Prompt(pointers, mode).value);
  }

  /** The corrected formatter makes `query_agent` total: it always returns a reply. */
  lemma QueryAgentCorrectedNeverRaises(configured: bool, query: string, history: seq<ChatEntry>,
                                       pointers: seq<PromptPointer>,
                                       chat: (seq<ChatMessage>, string) -> (nat -> Retry.Outcome<string>),
                                       parse: string -> ParseOutcome)
    ensures QueryAgent(configured, query, history, pointers, StringsOnly, chat, parse).Success?
  {
    StringsOnlyNeverRaises(pointers);
  }
}
