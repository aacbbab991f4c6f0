/**
 * Discipline codes, the file-name helpers that seed a page's title and sheet
 * number, and the normalisation that lets "A-101", "A101" and "3/A-101" name
 * the same sheet.
 */
module SheetRefs {
  import opened Wrappers
  import opened Text

  /** The discipline codes a page can be filed under, with their names. */
  const DisciplineNames: map<string, string> := map[
    "A" := "Architectural",
    "S" := "Structural",
    "M" := "Mechanical",
    "E" := "Electrical",
    "P" := "Plumbing",
    "FP" := "Fire Protection",
    "C" := "Civil",
    "L" := "Landscape",
    "G" := "General"
  ]

  /** The codes in the order of the table above. */
  const DisciplineCodes: seq<string> := ["A", "S", "M", "E", "P", "FP", "C", "L", "G"]

  /** The code every unknown discipline falls back to. */
  const GeneralCode: string := "G"

  /** Full name of a discipline code; unknown codes read as "General". */
  function DisciplineName(code: string): (name: string)
    ensures code in DisciplineNames ==> name == DisciplineNames[code]
    ensures code !in DisciplineNames ==> name == DisciplineNames[GeneralCode]
    ensures name in DisciplineNames.Values
  {
    if code in DisciplineNames then DisciplineNames[code] else "General"
  }

  /** The page title a PDF file name suggests: the name without a ".pdf" extension in any case. */
  function ExtractTitleFromFilename(filename: string): (title: string)
    ensures EndsWith(Lower(filename), ".pdf") ==>
      |filename| >= 4 && title + filename[|filename| - 4..] == filename
    ensures !EndsWith(Lower(filename), ".pdf") ==> title == filename
  {
    if EndsWith(Lower(filename), ".pdf") then filename[..|filename| - 4] else filename
  }

  /** Removing the extension and putting it back gives the file name again. */
  lemma TitleOfPdfName(stem: string, ext: string)
    requires Lower(ext) == ".pdf"
    ensures ExtractTitleFromFilename(stem + ext) == stem
  {
    var f := stem + ext;
    assert Lower(f)[|f| - 4..] == Lower(ext);
  }

  // ---------------------------------------------------------------------
  // The sheet-number pattern `[A-Z]{1,2}\d{2,3}(?:\.\d+)?` anchored at the start
  // ---------------------------------------------------------------------

  /** A character the `[A-Z]` class accepts, with or without case folding. */
  predicate SheetLetter(c: char, ignoreCase: bool) {
    if ignoreCase then IsLetter(c) else IsUpperLetter(c)
  }

  /** Length of the run of sheet letters at the start of `s`. */
  function LetterRun(s: string, ignoreCase: bool): (n: nat)
    ensures n <= |s|
    ensures forall k :: 0 <= k < n ==> SheetLetter(s[k], ignoreCase)
    ensures n == |s| || !SheetLetter(s[n], ignoreCase)
  {
    if s == [] || !SheetLetter(s[0], ignoreCase) then 0 else 1 + LetterRun(s[1..], ignoreCase)
  }

  /** Length of the run of decimal digits starting at index `i` of `s`. */
  function DigitsFrom(s: string, i: nat): (n: nat)
    requires i <= |s|
    ensures i + n <= |s|
    ensures forall k :: i <= k < i + n ==> IsDigit(s[k])
    ensures i + n == |s| || !IsDigit(s[i + n])
    decreases |s| - i
  {
    if i == |s| || !IsDigit(s[i]) then 0 else 1 + DigitsFrom(s, i + 1)
  }

  /** The first `j` characters of `s` are `l` letters, `k` digits and an optional dot followed by digits. */
  predicate ShapeAt(s: string, j: nat, l: nat, k: nat, ignoreCase: bool) {
    l + k <= j <= |s|
    && (forall i :: 0 <= i < l ==> SheetLetter(s[i], ignoreCase))
    && (forall i :: l <= i < l + k ==> IsDigit(s[i]))
    && (j == l + k || (j >= l + k + 2 && s[l + k] == '.' && forall i :: l + k + 1 <= i < j ==> IsDigit(s[i])))
  }

  /** The first `j` characters of `s` match `[A-Z]{1,2}\d{2,3}(?:\.\d+)?` as a whole. */
  predicate PatternAt(s: string, j: nat, ignoreCase: bool) {
    ShapeAt(s, j, 1, 2, ignoreCase) || ShapeAt(s, j, 1, 3, ignoreCase)
    || ShapeAt(s, j, 2, 2, ignoreCase) || ShapeAt(s, j, 2, 3, ignoreCase)
  }

  /** The whole of `m` matches the sheet pattern. */
  predicate SheetPattern(m: string, ignoreCase: bool) {
    PatternAt(m, |m|, ignoreCase)
  }

  /** Matching a prefix is matching the characters up to its end. */
  lemma PatternOfPrefix(s: string, j: nat, ignoreCase: bool)
    requires j <= |s|
    ensures SheetPattern(s[..j], ignoreCase) <==> PatternAt(s, j, ignoreCase)
  {
    var m := s[..j];
    assert forall i :: 0 <= i < j ==> m[i] == s[i];
  }

  /**
   * Length of what `re.match` of the sheet pattern consumes, 0 for no match:
   * the letters must be the whole leading letter run, the digits are taken
   * greedily up to three, and a decimal part is taken only when a dot and a
   * digit follow.
   */
  function SheetMatchLength(s: string, ignoreCase: bool): (n: nat)
    ensures n <= |s|
    ensures n != 0 ==> 3 <= n
  {
    var l := LetterRun(s, ignoreCase);
    if l < 1 || l > 2 then 0
    else
      var d := DigitsFrom(s, l);
      if d < 2 then 0
      else
        var n := l + (if d < 3 then d else 3);
        if n + 1 < |s| && s[n] == '.' && IsDigit(s[n + 1]) then n + 1 + DigitsFrom(s, n + 1)
        else n
  }

  /** The text `re.match` returns for the sheet pattern, if any. */
  function SheetPrefix(s: string, ignoreCase: bool): (r: Option<string>)
    ensures r.Some? ==> StartsWith(s, r.value) && 3 <= |r.value|
  {
    var n := SheetMatchLength(s, ignoreCase);
    if n == 0 then None else Some(s[..n])
  }

  /** Whatever the match consumes fits the sheet pattern. */
  lemma MatchFitsPattern(s: string, ignoreCase: bool)
    ensures SheetMatchLength(s, ignoreCase) != 0 ==> PatternAt(s, SheetMatchLength(s, ignoreCase), ignoreCase)
  {
    var l := LetterRun(s, ignoreCase);
    if 1 <= l <= 2 {
      var d := DigitsFrom(s, l);
      if d >= 2 {
        var n := l + (if d < 3 then d else 3);
        assert ShapeAt(s, SheetMatchLength(s, ignoreCase), l, n - l, ignoreCase);
      }
    }
  }

  /** A shape at `j` pins the letter count, bounds the digit run and fixes where a decimal part begins. */
  lemma ShapeBounds(s: string, j: nat, l: nat, k: nat, ignoreCase: bool)
    requires 2 <= k && ShapeAt(s, j, l, k, ignoreCase)
    ensures l == LetterRun(s, ignoreCase)
    ensures k <= DigitsFrom(s, l)
    ensures j > l + k ==> k == DigitsFrom(s, l) && j - (l + k + 1) <= DigitsFrom(s, l + k + 1)
  {
    LetterRunAt(s, ignoreCase, l);
    DigitsFromAtLeast(s, l, k);
    if j > l + k {
      DigitsFromAt(s, l, k);
      DigitsFromAtLeast(s, l + k + 1, j - (l + k + 1));
    }
  }

  /** No prefix longer than the match fits the pattern. */
  lemma MatchIsLongest(s: string, j: nat, ignoreCase: bool)
    requires PatternAt(s, j, ignoreCase)
    ensures j <= SheetMatchLength(s, ignoreCase)
  {
    if ShapeAt(s, j, 1, 2, ignoreCase) {
      ShapeIsCovered(s, j, 1, 2, ignoreCase);
    } else if ShapeAt(s, j, 1, 3, ignoreCase) {
      ShapeIsCovered(s, j, 1, 3, ignoreCase);
    } else if ShapeAt(s, j, 2, 2, ignoreCase) {
      ShapeIsCovered(s, j, 2, 2, ignoreCase);
    } else {
      ShapeIsCovered(s, j, 2, 3, ignoreCase);
    }
  }

  lemma ShapeIsCovered(s: string, j: nat, l: nat, k: nat, ignoreCase: bool)
    requires 1 <= l <= 2 && 2 <= k <= 3 && ShapeAt(s, j, l, k, ignoreCase)
    ensures j <= SheetMatchLength(s, ignoreCase)
  {
    ShapeBounds(s, j, l, k, ignoreCase);
  }

  /**
   * The regular expression semantics: the match fits the pattern and is the
   * longest prefix of `s` that does; there is no match when no prefix fits.
   */
  lemma {:induction false} SheetPrefixIsLongestMatch(s: string, ignoreCase: bool)
    ensures SheetPrefix(s, ignoreCase).None? ==>
      forall j :: 0 <= j <= |s| ==> !SheetPattern(s[..j], ignoreCase)
    ensures SheetPrefix(s, ignoreCase).Some? ==> SheetPattern(SheetPrefix(s, ignoreCase).value, ignoreCase)
    ensures SheetPrefix(s, ignoreCase).Some? ==>
      forall j :: |SheetPrefix(s, ignoreCase).value| < j <= |s| ==> !SheetPattern(s[..j], ignoreCase)
  {
    var n := SheetMatchLength(s, ignoreCase);
    MatchFitsPattern(s, ignoreCase);
    PatternOfPrefix(s, n, ignoreCase);
    forall j | 0 <= j <= |s| && SheetPattern(s[..j], ignoreCase)
      ensures 0 < j <= n
    {
      PatternOfPrefix(s, j, ignoreCase);
      MatchIsLongest(s, j, ignoreCase);
    }
  }

  /** `extract_sheet_number_from_filename`: the case-insensitive match, upper-cased. */
  function ExtractSheetNumberFromFilename(filename: string): (r: Option<string>)
    ensures r.Some? <==> SheetPrefix(filename, true).Some?
    ensures r.Some? ==> r.value == Upper(SheetPrefix(filename, true).value)
    ensures r.Some? ==> 3 <= |r.value| && forall i :: 0 <= i < |r.value| ==> !IsLowerLetter(r.value[i])
  {
    match SheetPrefix(filename, true)
    case None => None
    case Some(m) => Some(Upper(m))
  }

  /** A plain sheet name followed by a title is recognised. */
  lemma ExtractSheetNumberExample()
    ensures ExtractSheetNumberFromFilename("a401.pdf") == Some("A401")
  {
    var s := "a401.pdf";
    OneLetterThreeDigitsExample();
    ExtractOneLetterThreeDigits(s);
    UpperExample();
  }

  lemma OneLetterThreeDigitsExample()
    ensures var s := "a401.pdf";
      (6 <= |s| && SheetLetter(s[0], true) && !SheetLetter(s[1], true)
       && IsDigit(s[1]) && IsDigit(s[2]) && IsDigit(s[3]) && !IsDigit(s[4]) && !IsDigit(s[5])
       && s[..4] == "a401")
  {
  }

  /** One letter and three digits, then a '.' and no digit: the match is those four characters. */
  lemma ExtractOneLetterThreeDigits(s: string)
    requires 6 <= |s| && SheetLetter(s[0], true) && !SheetLetter(s[1], true)
    requires IsDigit(s[1]) && IsDigit(s[2]) && IsDigit(s[3]) && !IsDigit(s[4]) && !IsDigit(s[5])
    ensures ExtractSheetNumberFromFilename(s) == Some(Upper(s[..4]))
  {
    LetterRunAt(s, true, 1);
    DigitsFromAt(s, 1, 3);
    assert SheetMatchLength(s, true) == 4;
  }

  lemma UpperExample()
    ensures Upper("a401") == "A401"
  {
    var u := Upper("a401");
    assert u[0] == 'A' && u[1] == '4' && u[2] == '0' && u[3] == '1';
  }

  /** The letter run ends at the first character that is not a sheet letter. */
  lemma LetterRunAt(s: string, ignoreCase: bool, n: nat)
    requires n <= |s| && (n == |s| || !SheetLetter(s[n], ignoreCase))
    requires forall k :: 0 <= k < n ==> SheetLetter(s[k], ignoreCase)
    ensures LetterRun(s, ignoreCase) == n
  {
  }

  /** The digit run ends at the first character that is not a digit. */
  lemma DigitsFromAt(s: string, i: nat, n: nat)
    requires i + n <= |s| && (i + n == |s| || !IsDigit(s[i + n]))
    requires forall k :: i <= k < i + n ==> IsDigit(s[k])
    ensures DigitsFrom(s, i) == n
  {
  }

  /** A run of `n` digits at `i` is covered by the digit run there. */
  lemma DigitsFromAtLeast(s: string, i: nat, n: nat)
    requires i + n <= |s|
    requires forall k :: i <= k < i + n ==> IsDigit(s[k])
    ensures n <= DigitsFrom(s, i)
  {
  }

  /** Names whose sheet part has a single digit before the dot are not recognised. */
  lemma ExtractSheetNumberNeedsTwoDigits()
    ensures ExtractSheetNumberFromFilename("AS2.1.pdf") == None
  {
    var s := "AS2.1.pdf";
    LetterRunAt(s, true, 2);
    DigitsFromAt(s, 2, 1);
  }

  // ---------------------------------------------------------------------
  // normalize_sheet_ref
  // ---------------------------------------------------------------------

  /** The characters `[-.\s]` that normalisation deletes. */
  predicate IsSeparator(c: char) {
    c == '-' || c == '.' || IsSpace(c)
  }

  /** `re.sub(r'[-.\s]', '', s)` */
  function RemoveSeparators(s: string): (r: string)
    ensures |r| <= |s|
    ensures forall i :: 0 <= i < |r| ==> !IsSeparator(r[i])
    ensures forall c :: c in r ==> c in s
  {
    if s == [] then []
    else (if IsSeparator(s[0]) then [] else [s[0]]) + RemoveSeparators(s[1..])
  }

  /** Upper-case, then drop separators. */
  function Clean(s: string): (r: string)
    ensures forall i :: 0 <= i < |r| ==> !IsSeparator(r[i]) && !IsLowerLetter(r[i])
  {
    var u := Upper(s);
    var r := RemoveSeparators(u);
    assert forall c :: c in r ==> !IsLowerLetter(c);
    r
  }

  /** `re.match(r'^[A-Z]+\d', clean)`: a run of capitals followed by a digit. */
  predicate LooksLikeSheet(clean: string) {
    var l := LetterRun(clean, false);
    1 <= l < |clean| && IsDigit(clean[l])
  }

  /** The cleaned form of the first '/'-separated part that looks like a sheet. */
  function FirstSheetPart(parts: seq<string>): (r: Option<string>)
    ensures r.Some? ==> exists k :: 0 <= k < |parts| && r.value == Clean(parts[k]) && LooksLikeSheet(r.value)
    ensures r.None? ==> forall k :: 0 <= k < |parts| ==> !LooksLikeSheet(Clean(parts[k]))
  {
    if parts == [] then None
    else if LooksLikeSheet(Clean(parts[0])) then Some(Clean(parts[0]))
    else
      var r := FirstSheetPart(parts[1..]);
      assert r.Some? ==> exists k :: 0 <= k < |parts| && r.value == Clean(parts[k]) && LooksLikeSheet(r.value) by {
        if r.Some? {
          var k :| 0 <= k < |parts[1..]| && r.value == Clean(parts[1..][k]) && LooksLikeSheet(r.value);
          assert parts[1..][k] == parts[k + 1];
        }
      }
      r
  }

  /**
   * `normalize_sheet_ref`: the empty reference stays empty; a detail callout
   * "3/A-501" yields the first cleaned part that looks like a sheet; anything
   * else is upper-cased with its separators removed.
   */
  function NormalizeSheetRef(ref: string): (r: string)
    ensures forall i :: 0 <= i < |r| ==> !IsSeparator(r[i]) && !IsLowerLetter(r[i])
    ensures ref == [] ==> r == []
  {
    if ref == [] then []
    else if '/' in ref then
      match FirstSheetPart(Split(ref, '/'))
      case Some(c) => c
      case None => Clean(ref)
    else Clean(ref)
  }

  /**
   * A reference without a slash, or whose parts hold no sheet number, is
   * cleaned whole; otherwise the result is one of its cleaned parts, and
   * looks like a sheet number.
   */
  lemma NormalizeCases(ref: string)
    ensures '/' !in ref ==> NormalizeSheetRef(ref) == Clean(ref)
    ensures '/' in ref && FirstSheetPart(Split(ref, '/')).None? ==> NormalizeSheetRef(ref) == Clean(ref)
    ensures '/' in ref && FirstSheetPart(Split(ref, '/')).Some? ==>
      var r := NormalizeSheetRef(ref);
      LooksLikeSheet(r) && '/' !in r && exists k :: 0 <= k < |Split(ref, '/')| && r == Clean(Split(ref, '/')[k])
  {
  }

  /** A string without separators or lower-case letters is already clean. */
  lemma CleanKeeps(s: string)
    requires forall i :: 0 <= i < |s| ==> !IsSeparator(s[i]) && !IsLowerLetter(s[i])
    ensures Clean(s) == s
  {
    assert Upper(s) == s;
    RemoveSeparatorsKeeps(s);
  }

  /** A lone separator cleans to nothing. */
  lemma CleanSeparator(c: char)
    requires IsSeparator(c)
    ensures Clean([c]) == []
  {
    assert UpperChar(c) == c;
    assert Upper([c]) == [c];
    assert RemoveSeparators([c]) == [] by {
      assert [c][1..] == [];
    }
  }

  /** A separator between two pieces disappears from the clean form. */
  lemma CleanAroundSeparator(a: string, c: char, b: string)
    requires IsSeparator(c)
    ensures Clean(a + [c] + b) == Clean(a) + Clean(b)
  {
    CleanConcat(a + [c], b);
    CleanConcat(a, [c]);
    CleanSeparator(c);
  }

  /** "A-101", "A.101" and "A 101" normalise like "A101": separators do not matter. */
  lemma NormalizeIgnoresSeparator(a: string, c: char, b: string)
    requires IsSeparator(c) && '/' !in a && '/' !in b
    ensures NormalizeSheetRef(a + [c] + b) == NormalizeSheetRef(a + b)
  {
    assert c != '/';
    var s := a + [c] + b;
    assert '/' !in s by {
      assert forall i :: 0 <= i < |s| ==> s[i] != '/';
    }
    CleanAroundSeparator(a, c, b);
    CleanConcat(a, b);
  }

  /** Letter case does not matter in a reference without a detail callout. */
  lemma NormalizeIgnoresCase(ref: string)
    requires '/' !in ref
    ensures NormalizeSheetRef(Upper(ref)) == NormalizeSheetRef(ref)
  {
    assert Upper(Upper(ref)) == Upper(ref);
  }

  /** In a callout "detail/sheet" whose detail part is not sheet-like, the sheet part is the result. */
  lemma NormalizeDetailCallout(detail: string, sheet: string)
    requires '/' !in detail && '/' !in sheet
    requires !LooksLikeSheet(Clean(detail)) && LooksLikeSheet(Clean(sheet))
    ensures NormalizeSheetRef(detail + "/" + sheet) == Clean(sheet)
  {
    var ref := detail + "/" + sheet;
    assert ref[|detail|] == '/';
    SplitPrepend(detail, '/', sheet);
    var parts := Split(ref, '/');
    assert Split(sheet, '/') == [sheet];
    assert parts == [detail, sheet];
    assert FirstSheetPart(parts[1..]) == Some(Clean(sheet)) by {
      assert parts[1..] == [sheet];
    }
  }

  /** In a callout whose first part is sheet-like, that part wins. */
  lemma NormalizeCalloutFirstPart(first: string, rest: string)
    requires '/' !in first && LooksLikeSheet(Clean(first))
    ensures NormalizeSheetRef(first + "/" + rest) == Clean(first)
  {
    var ref := first + "/" + rest;
    assert ref[|first|] == '/';
    SplitPrepend(first, '/', rest);
  }

  // ---------------------------------------------------------------------
  // Idempotence of normalisation
  // ---------------------------------------------------------------------

  lemma {:induction false} RemoveSeparatorsConcat(a: string, b: string)
    ensures RemoveSeparators(a + b) == RemoveSeparators(a) + RemoveSeparators(b)
    decreases |a|
  {
    if a != [] {
      assert (a + b)[1..] == a[1..] + b;
      RemoveSeparatorsConcat(a[1..], b);
    } else {
      assert a + b == b;
    }
  }

  lemma {:induction false} RemoveSeparatorsKeeps(s: string)
    requires forall i :: 0 <= i < |s| ==> !IsSeparator(s[i])
    ensures RemoveSeparators(s) == s
    decreases |s|
  {
    if s != [] {
      RemoveSeparatorsKeeps(s[1..]);
    }
  }

  /** Cleaning distributes over concatenation. */
  lemma CleanConcat(a: string, b: string)
    ensures Clean(a + b) == Clean(a) + Clean(b)
  {
    assert Upper(a + b) == Upper(a) + Upper(b);
    RemoveSeparatorsConcat(Upper(a), Upper(b));
  }

  /** A cleaned string is its own clean form. */
  lemma CleanIdempotent(s: string)
    ensures Clean(Clean(s)) == Clean(s)
  {
    var c := Clean(s);
    assert Upper(c) == c;
    RemoveSeparatorsKeeps(c);
  }

  /** Cleaning never creates or removes a '/'. */
  lemma {:induction false} CleanSlash(s: string)
    ensures '/' in Clean(s) <==> '/' in s
    decreases |s|
  {
    if s != [] {
      assert s == [s[0]] + s[1..];
      CleanConcat([s[0]], s[1..]);
      CleanSlash(s[1..]);
      assert Clean([s[0]]) == (if IsSeparator(UpperChar(s[0])) then [] else [UpperChar(s[0])]) by {
        assert Upper([s[0]]) == [UpperChar(s[0])];
        assert [UpperChar(s[0])][1..] == [];
      }
    }
  }

  /** Each part cleaned, in order. */
  function CleanAll(parts: seq<string>): (r: seq<string>)
    ensures |r| == |parts| && forall k :: 0 <= k < |parts| ==> r[k] == Clean(parts[k])
  {
    seq(|parts|, k requires 0 <= k < |parts| => Clean(parts[k]))
  }

  lemma CleanAllCons(a: string, rest: seq<string>)
    ensures CleanAll([a] + rest) == [Clean(a)] + CleanAll(rest)
  {
  }

  /** Splitting at '/' commutes with cleaning. */
  lemma {:induction false} SplitClean(s: string)
    ensures Split(Clean(s), '/') == CleanAll(Split(s, '/'))
    decreases |s|
  {
    CleanSlash(s);
    if '/' in s {
      var i := IndexOf(s, '/');
      var a, b := s[..i], s[i + 1..];
      assert s == a + ['/'] + b;
      CleanConcat(a + ['/'], b);
      CleanConcat(a, ['/']);
      assert Clean(['/']) == ['/'] by {
        assert Upper(['/']) == ['/'];
      }
      CleanSlash(a);
      SplitPrepend(Clean(a), '/', Clean(b));
      SplitClean(b);
      assert Split(s, '/') == [a] + Split(b, '/');
      CleanAllCons(a, Split(b, '/'));
    } else {
      assert Split(s, '/') == [s] && Split(Clean(s), '/') == [Clean(s)];
    }
  }

  /** Normalising an already normalised reference changes nothing. */
  lemma NormalizeIdempotent(ref: string)
    ensures NormalizeSheetRef(NormalizeSheetRef(ref)) == NormalizeSheetRef(ref)
  {
    var r := NormalizeSheetRef(ref);
    if r == [] {
    } else if '/' !in r {
      assert NormalizeSheetRef(r) == Clean(r);
      if '/' in ref && FirstSheetPart(Split(ref, '/')).Some? {
        var k :| 0 <= k < |Split(ref, '/')| && r == Clean(Split(ref, '/')[k]);
        CleanIdempotent(Split(ref, '/')[k]);
      } else {
        CleanIdempotent(ref);
      }
    } else {
      // only the fallback keeps a '/': every part failed, and cleaning does not change that
      assert r == Clean(ref);
      var parts := Split(ref, '/');
      SplitClean(ref);
      forall k | 0 <= k < |parts|
        ensures !LooksLikeSheet(Clean(Split(r, '/')[k]))
      {
        CleanIdempotent(parts[k]);
      }
      assert FirstSheetPart(Split(r, '/')).None?;
      CleanIdempotent(ref);
    }
  }

  /** Capitals and digits are neither separators nor lower-case letters. */
  lemma CapitalsAndDigits(s: string)
    requires forall i :: 0 <= i < |s| ==> IsUpperLetter(s[i]) || IsDigit(s[i])
    ensures forall i :: 0 <= i < |s| ==> !IsSeparator(s[i]) && !IsLowerLetter(s[i])
  {
  }

  /** A reference of capitals and digits is its own normal form. */
  lemma NormalizeKeepsPlain(s: string)
    requires forall i :: 0 <= i < |s| ==> IsUpperLetter(s[i]) || IsDigit(s[i])
    ensures NormalizeSheetRef(s) == s
  {
    CapitalsAndDigits(s);
    CleanKeeps(s);
    assert forall i :: 0 <= i < |s| ==> s[i] != '/';
  }

  /** "A101" is already normal. */
  lemma NormalizePlainExample()
    ensures NormalizeSheetRef("A101") == "A101"
  {
    NormalizeKeepsPlain("A101");
  }

  /** "A-101" and "A.101" normalise to "A101". */
  lemma NormalizeSeparatorExamples()
    ensures NormalizeSheetRef("A-101") == "A101"
    ensures NormalizeSheetRef("A.101") == "A101"
  {
    NormalizePlainExample();
    assert "A-101" == "A" + ['-'] + "101" && "A.101" == "A" + ['.'] + "101" && "A" + "101" == "A101";
    NormalizeIgnoresSeparator("A", '-', "101");
    NormalizeIgnoresSeparator("A", '.', "101");
  }

  /** "A-501" cleans to "A501". */
  lemma CleanHyphenExample()
    ensures Clean("A-501") == "A501"
  {
    assert "A-501" == "A" + ['-'] + "501";
    CleanAroundSeparator("A", '-', "501");
    CapitalsAndDigits("A");
    CleanKeeps("A");
    CapitalsAndDigits("501");
    CleanKeeps("501");
  }

  /** In "3/A-501" only the second part looks like a sheet number. */
  lemma CalloutPartsExample()
    ensures !LooksLikeSheet(Clean("3")) && LooksLikeSheet(Clean("A-501"))
  {
    CleanHyphenExample();
    CapitalsAndDigits("3");
    CleanKeeps("3");
    assert LetterRun("3", false) == 0;
    assert LetterRun("A501", false) == 1;
  }

  /** The callout "3/A-501" normalises to its sheet part "A501". */
  lemma NormalizeCalloutExample()
    ensures NormalizeSheetRef("3/A-501") == "A501"
  {
    CalloutPartsExample();
    CalloutSplitExample();
    NormalizeDetailCallout("3", "A-501");
    CleanHyphenExample();
  }

  lemma CalloutSplitExample()
    ensures "3/A-501" == "3" + "/" + "A-501"
    ensures '/' !in "3" && '/' !in "A-501"
  {
  }
}
