/**
 * Turning a model reply into the text handed to the JSON parser: removing a
 * Markdown code fence, single backticks, and prose around the JSON value.
 */
module JsonText {
  import opened Text

  const Fence: string := "```"

  /** The fenced form of `body`: an opening fence with a language tag, the body, a closing fence. */
  function Fenced(lang: string, body: string): string {
    Fence + lang + ['\n'] + body + ['\n'] + Fence
  }

  /**
   * The fence removal shared by every Gemini caller: when the (already
   * stripped) text opens with a fence, drop its first line, drop the last
   * line when it is a bare closing fence, and rejoin the rest.
   */
  function StripFence(t: string): (r: string)
    ensures !StartsWith(t, Fence) ==> r == t
  {
    if StartsWith(t, Fence) then
      var lines := Split(t, '\n')[1..];
      var kept := if lines != [] && Strip(lines[|lines| - 1]) == Fence then lines[..|lines| - 1] else lines;
      Join(kept, "\n")
    else t
  }

  /** The text `analyze_context_pointer` and `query_agent` hand to the parser. */
  function FenceFreeReply(result: string): string {
    StripFence(Strip(result))
  }

  /** A fenced body comes back out unchanged, whatever the language tag and the body. */
  lemma StripFenceOfFenced(lang: string, body: string)
    requires '\n' !in lang
    ensures StripFence(Fenced(lang, body)) == body
  {
    var t := Fenced(lang, body);
    FencedLines(lang, body);
    FencedOpens(lang, body, t);
    StripFenceAt(t, body);
  }

  lemma FencedOpens(lang: string, body: string, t: string)
    requires t == Fenced(lang, body)
    ensures StartsWith(t, Fence)
  {
    assert t[..3] == Fence;
  }

  /** An opened text whose later lines are the body's lines then a closing fence gives back the body. */
  lemma StripFenceAt(t: string, body: string)
    requires StartsWith(t, Fence)
    requires Split(t, '\n')[1..] == Split(body, '\n') + [Fence]
    ensures StripFence(t) == body
  {
    var lines := Split(t, '\n')[1..];
    FenceIsStripped();
    assert lines[..|lines| - 1] == Split(body, '\n');
    JoinSplit(body, '\n');
  }

  lemma FenceIsStripped()
    ensures Strip(Fence) == Fence && '\n' !in Fence
  {
    assert IsStripped(Fence);
  }

  /** The lines of a fenced body: the opening line, the body's lines, the closing fence. */
  lemma FencedLines(lang: string, body: string)
    requires '\n' !in lang
    ensures Split(Fenced(lang, body), '\n') == [Fence + lang] + Split(body, '\n') + [Fence]
    ensures Split(Fenced(lang, body), '\n')[1..] == Split(body, '\n') + [Fence]
  {
    var first := Fence + lang;
    assert Fenced(lang, body) == first + ['\n'] + (body + ['\n'] + Fence);
    assert '\n' !in first by {
      assert forall i :: 0 <= i < |first| ==> first[i] != '\n';
    }
    SplitPrepend(first, '\n', body + ['\n'] + Fence);
    FenceIsStripped();
    SplitAppend(body, '\n', Fence);
  }

  /** A fenced reply is not blank, and the parser is handed its body. */
  lemma FencedReply(lang: string, body: string)
    requires '\n' !in lang
    ensures Strip(Fenced(lang, body)) == Fenced(lang, body) != ""
    ensures FenceFreeReply(Fenced(lang, body)) == body
  {
    FencedReplyOf(lang, body, Fenced(lang, body));
  }

  lemma FencedReplyOf(lang: string, body: string, t: string)
    requires '\n' !in lang && t == Fenced(lang, body)
    ensures Strip(t) == t != ""
    ensures FenceFreeReply(t) == body
  {
    FencedEnds(lang, body, t);
    StripFenceOfFenced(lang, body);
  }

  /** A fenced text starts and ends with a backtick. */
  lemma FencedEnds(lang: string, body: string, t: string)
    requires t == Fenced(lang, body)
    ensures t != [] && IsStripped(t)
  {
    assert t[0] == '`' && t[|t| - 1] == '`';
  }

  /** A fenced reply, even with whitespace around it, parses as its body. */
  lemma FenceFreeReplyOfFenced(lang: string, body: string, pad: string)
    requires '\n' !in lang
    requires forall i :: 0 <= i < |pad| ==> IsSpace(pad[i])
    ensures FenceFreeReply(pad + Fenced(lang, body) + pad) == body
  {
    var t := Fenced(lang, body);
    assert IsStripped(t) by {
      assert t[0] == '`' && t[|t| - 1] == '`';
    }
    StripPadded(pad, t);
    StripFenceOfFenced(lang, body);
  }

  /** `t[1:-1]` for a text wrapped in single backticks (a lone backtick gives ""). */
  function UnwrapBackticks(t: string): (r: string)
    ensures StartsWith(t, "`") && EndsWith(t, "`") && !StartsWith(t, Fence) ==>
      |r| == (if |t| >= 2 then |t| - 2 else 0) && (|t| >= 2 ==> t == "`" + r + "`")
    ensures !(StartsWith(t, "`") && EndsWith(t, "`") && !StartsWith(t, Fence)) ==> r == t
  {
    if StartsWith(t, "`") && EndsWith(t, "`") && !StartsWith(t, Fence) then
      if |t| >= 2 then t[1..|t| - 1] else ""
    else t
  }

  /**
   * Keep only the JSON value inside surrounding prose: from the first `{` to
   * the last `}`, or, when a `[` comes first, from it to the last `]`.
   */
  function CutToJson(t: string): (r: string)
    ensures StartsWith(t, "{") || StartsWith(t, "[") ==> r == t
    ensures r == t || (|r| >= 2 && ((r[0] == '{' && r[|r| - 1] == '}') || (r[0] == '[' && r[|r| - 1] == ']')))
  {
    if StartsWith(t, "{") || StartsWith(t, "[") then t
    else
      var firstBrace := Find(t, '{');
      var firstBracket := Find(t, '[');
      if firstBrace >= 0 || firstBracket >= 0 then
        if firstBrace >= 0 && (firstBracket < 0 || firstBrace < firstBracket) then CutBetween(t, firstBrace, '}')
        else if firstBracket >= 0 then CutBetween(t, firstBracket, ']')
        else t
      else t
  }

  /** `t[first:last + 1]` for the last `close`, when that comes after `first`; otherwise `t`. */
  function CutBetween(t: string, first: nat, close: char): (r: string)
    requires first < |t|
    ensures r == t || (|r| >= 2 && r[0] == t[first] && r[|r| - 1] == close)
  {
    var last := RFind(t, close);
    if last > first then t[first..last + 1] else t
  }

  /** `_clean_json_response`: strip, remove a fence, unwrap backticks, cut to the JSON value, strip. */
  function CleanJsonResponse(response: string): (r: string)
    ensures IsStripped(r)
  {
    Strip(CutToJson(UnwrapBackticks(StripFence(Strip(response)))))
  }

  /** A raw JSON object or array, already trimmed, passes through unchanged. */
  lemma CleanRawJson(json: string)
    requires IsStripped(json) && (StartsWith(json, "{") || StartsWith(json, "["))
    ensures CleanJsonResponse(json) == json
  {
    assert !StartsWith(json, Fence);
    assert !StartsWith(json, "`");
  }

  /** A fenced JSON value comes out as the value. */
  lemma CleanFencedJson(lang: string, json: string)
    requires '\n' !in lang
    requires IsStripped(json) && (StartsWith(json, "{") || StartsWith(json, "["))
    ensures CleanJsonResponse(Fenced(lang, json)) == json
  {
    var t := Fenced(lang, json);
    assert IsStripped(t) by {
      assert t[0] == '`' && t[|t| - 1] == '`';
    }
    StripFenceOfFenced(lang, json);
    assert !StartsWith(json, "`");
  }

  /** Prose around a JSON object is cut away. */
  lemma CleanJsonInProse(before: string, json: string, after: string)
    requires before != [] && before[0] != '`' && before[0] != '{' && before[0] != '['
    requires '{' !in before && '[' !in before && '}' !in after
    requires |json| >= 2 && json[0] == '{' && json[|json| - 1] == '}'
    requires IsStripped(before + json + after)
    ensures CleanJsonResponse(before + json + after) == json
  {
    var t := before + json + after;
    assert t[0] == before[0];
    assert !StartsWith(t, "`") && !StartsWith(t, Fence);
    CutInProse(before, json, after);
    assert IsStripped(json);
  }

  /** The JSON object is what the cut keeps of prose around it. */
  lemma CutInProse(before: string, json: string, after: string)
    requires before != [] && before[0] != '{' && before[0] != '['
    requires '{' !in before && '[' !in before && '}' !in after
    requires |json| >= 2 && json[0] == '{' && json[|json| - 1] == '}'
    ensures CutToJson(before + json + after) == json
  {
    var t := before + json + after;
    var n := |before|;
    assert t[..n] == before && t[n] == '{';
    FindAt(t, '{', n);
    assert t[..n + 1] == before + ['{'];
    FindAfter(t, '[', n + 1);
    var k := n + |json| - 1;
    assert t[k] == '}' && t[k + 1..] == after;
    RFindAt(t, '}', k);
    assert t[n..k + 1] == json;
    NotOpened(t);
    CutAtBrace(t, n, k);
  }

  /** A text whose first character is neither `{` nor `[` does not open with either. */
  lemma NotOpened(t: string)
    requires t != [] && t[0] != '{' && t[0] != '['
    ensures !StartsWith(t, "{") && !StartsWith(t, "[")
  {
    assert |t| >= 1 ==> t[..1][0] == t[0];
  }

  /** When a `{` comes first and a `}` follows it, the cut keeps the text between them. */
  lemma CutAtBrace(t: string, first: nat, last: nat)
    requires !StartsWith(t, "{") && !StartsWith(t, "[")
    requires Find(t, '{') == first && (Find(t, '[') < 0 || first < Find(t, '['))
    requires RFind(t, '}') == last && first < last
    ensures CutToJson(t) == t[first..last + 1]
  {
  }

  /** Whatever the reply, the cleaned text carries no surrounding whitespace. */
  lemma CleanIsStripped(response: string)
    ensures Strip(CleanJsonResponse(response)) == CleanJsonResponse(response)
  {
  }

  // ---------------------------------------------------------------------
  // The retrieval service's own fence handling
  // ---------------------------------------------------------------------

  /** The text of `t` before the first occurrence of `pat`, or all of `t`. */
  function Before(t: string, pat: string): (r: string)
    requires pat != []
    ensures StartsWith(t, r)
    ensures r == t || StartsWith(t[|r|..], pat)
    decreases |t|
  {
    if StartsWith(t, pat) then ""
    else if t == [] then ""
    else [t[0]] + Before(t[1..], pat)
  }

  /**
   * `search_with_gemini`'s clean-up: take what lies between the opening fence
   * and the next fence, drop a leading "json" tag, and strip.
   */
  function SearchReplyText(reply: string): (r: string)
    ensures IsStripped(r)
  {
    var t := Strip(reply);
    if StartsWith(t, Fence) then
      var inner := Before(t[3..], Fence);
      Strip(if StartsWith(inner, "json") then inner[4..] else inner)
    else Strip(t)
  }

  /** A fenced JSON reply to the retrieval search yields the JSON text. */
  lemma SearchReplyOfFenced(json: string)
    requires IsStripped(json) && !Contains(json, Fence)
    ensures SearchReplyText(Fence + "json\n" + json + "\n" + Fence) == json
  {
    StripPadded("\n", json);
    var inner := "json\n" + json + "\n";
    var t := Fence + inner + Fence;
    assert t == Fence + "json\n" + json + "\n" + Fence;
    FencedSearchShape(inner, t);
    FencedBefore(json, inner, t);
    TaggedInner(json, inner);
    SearchReplyOfOpened(t, inner);
  }

  /** What lies between the fences of a fenced "json" reply. */
  lemma FencedBefore(json: string, inner: string, t: string)
    requires inner == "json\n" + json + "\n" && t == Fence + inner + Fence && !Contains(json, Fence)
    ensures |t| >= 3 && Before(t[3..], Fence) == inner
  {
    FencedSearchShape(inner, t);
    BeforeFindsFence(inner, json);
  }

  /** An opened, stripped reply is cut at the next fence and loses its "json" tag. */
  lemma SearchReplyOfOpened(t: string, inner: string)
    requires IsStripped(t) && StartsWith(t, Fence) && |t| >= 3 && Before(t[3..], Fence) == inner
    requires StartsWith(inner, "json")
    ensures SearchReplyText(t) == Strip(inner[4..])
  {
  }

  /** A fenced text is already stripped, opens with a fence, and holds `inner` then the closing fence. */
  lemma FencedSearchShape(inner: string, t: string)
    requires t == Fence + inner + Fence
    ensures IsStripped(t) && StartsWith(t, Fence) && |t| >= 3 && t[3..] == inner + Fence
  {
    assert t[0] == '`' && t[|t| - 1] == '`';
    assert t[..3] == Fence;
  }

  /** The body of a "json"-tagged fence starts with the tag. */
  lemma TaggedInner(json: string, inner: string)
    requires inner == "json\n" + json + "\n"
    ensures StartsWith(inner, "json")
    ensures inner[4..] == "\n" + json + "\n"
  {
    assert inner[..4] == "json";
  }

  /** The first fence after "json\n" + body + "\n" is the closing one. */
  lemma BeforeFindsFence(inner: string, json: string)
    requires inner == "json\n" + json + "\n" && !Contains(json, Fence)
    ensures Before(inner + Fence, Fence) == inner
  {
    forall i | 0 <= i < |inner|
      ensures !StartsWith((inner + Fence)[i..], Fence)
    {
      NoFenceAt(inner, json, i);
    }
    BeforeUnmatched(inner, Fence);
  }

  /** No fence starts inside "json\n" + body + "\n" when the body holds none. */
  lemma NoFenceAt(inner: string, json: string, i: nat)
    requires inner == "json\n" + json + "\n" && !Contains(json, Fence) && i < |inner|
    ensures !StartsWith((inner + Fence)[i..], Fence)
  {
    var t := inner + Fence;
    if i < 5 {
      assert t[i] == "json\n"[i];
      assert t[i..][0] == t[i];
    } else if i + 3 <= 5 + |json| {
      if StartsWith(t[i..], Fence) {
        FenceInBody(inner, json, i);
        ContainsAt(json, Fence, i - 5);
        assert false;
      }
    } else {
      // The newline closing the body falls inside the three characters.
      assert t[5 + |json|] == '\n';
      assert t[i..][5 + |json| - i] == '\n';
    }
  }

  /** A fence inside the body of a "json"-tagged fence is a fence in the body itself. */
  lemma FenceInBody(inner: string, json: string, i: nat)
    requires inner == "json\n" + json + "\n" && 5 <= i && i + 3 <= 5 + |json|
    requires StartsWith((inner + Fence)[i..], Fence)
    ensures StartsWith(json[i - 5..], Fence)
  {
    var t := inner + Fence;
    forall k | 0 <= k < 3
      ensures json[i - 5..][k] == Fence[k]
    {
      assert t[i..][k] == Fence[k];
      assert t[i + k] == json[i - 5 + k];
    }
  }

  /** `sub` occurring at index `i` of `s` means `s` contains `sub`. */
  lemma {:induction false} ContainsAt(s: string, sub: string, i: nat)
    requires i <= |s| && StartsWith(s[i..], sub)
    ensures Contains(s, sub)
    decreases i
  {
    if i > 0 {
      assert s[1..][i - 1..] == s[i..];
      ContainsAt(s[1..], sub, i - 1);
    }
  }

  /** When `pat` starts nowhere inside `a`, the text before the first `pat` in `a + pat` is `a`. */
  lemma {:induction false} BeforeUnmatched(a: string, pat: string)
    requires pat != []
    requires forall i :: 0 <= i < |a| ==> !StartsWith((a + pat)[i..], pat)
    ensures Before(a + pat, pat) == a
    decreases |a|
  {
    if a == [] {
      assert a + pat == pat;
    } else {
      assert (a + pat)[0..] == a + pat;
      assert (a + pat)[1..] == a[1..] + pat;
      forall i | 0 <= i < |a[1..]|
        ensures !StartsWith((a[1..] + pat)[i..], pat)
      {
        assert (a[1..] + pat)[i..] == (a + pat)[i + 1..];
      }
      BeforeUnmatched(a[1..], pat);
    }
  }
}
