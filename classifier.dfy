/**
 * The pathway classifier of the volcano-plot script (`get_category`): each
 * pathway row gets exactly one of four categories, decided first by keyword
 * matching on its normalised name and otherwise by fixed strict thresholds on
 * its GSVA score and on -log10 of its p-value.
 */
module Classifier {
  import opened Text

  /** One pathway row: its name (the table index), GSVA score and -log10(p). */
  datatype Row = Row(name: string, score: real, negLog10P: real)

  datatype Category = KeywordMatch | Upregulated | Downregulated | NonSignificant

  /** The label string the script stores in the `category` column. */
  function Label(c: Category): string {
    match c
    case KeywordMatch => "keyword_match"
    case Upregulated => "upregulated"
    case Downregulated => "downregulated"
    case NonSignificant => "non-significant"
  }

  type PositiveReal = r: real | r > 0.0 witness 1.0

  /**
   * -log10(0.05), about 1.30103. The floating-point logarithm is not modelled;
   * only the fact that this cut-off is positive is used.
   */
  const SignificanceThreshold: PositiveReal

  /** A score must lie strictly beyond +/- this value to count as up- or downregulated. */
  const ScoreCutoff: real := 0.5

  /** The name matched against: underscores become spaces, then upper case. */
  function NormaliseName(name: string): string {
    Upper(Replace(name, '_', ' '))
  }

  /** A keyword that `strip()` leaves empty; such entries are dropped. */
  predicate IsBlank(keyword: string) {
    Strip(keyword) == ""
  }

  function CleanKeyword(keyword: string): string {
    Strip(Upper(keyword))
  }

  /** `[kw.upper().strip() for kw in keywords if kw.strip() != '']` */
  function CleanKeywords(keywords: seq<string>): seq<string> {
    if keywords == [] then []
    else (if IsBlank(keywords[0]) then [] else [CleanKeyword(keywords[0])]) + CleanKeywords(keywords[1..])
  }

  /** `all(keyword in name for keyword in keywords)` */
  predicate AllKeywordsIn(keywords: seq<string>, name: string) {
    forall k :: 0 <= k < |keywords| ==> Contains(name, keywords[k])
  }

  /** `any(keyword in name for keyword in keywords)` */
  predicate AnyKeywordIn(keywords: seq<string>, name: string) {
    exists k :: 0 <= k < |keywords| && Contains(name, keywords[k])
  }

  /** `get_category(row, keywords, logic)` */
  function GetCategory(row: Row, keywords: seq<string>, logic: string): Category {
    var name := NormaliseName(row.name);
    var cleaned := CleanKeywords(keywords);
    if logic == "AND" && AllKeywordsIn(cleaned, name) then KeywordMatch
    else if logic == "OR" && AnyKeywordIn(cleaned, name) then KeywordMatch
    else if row.score > ScoreCutoff && row.negLog10P > SignificanceThreshold then Upregulated
    else if row.score < -ScoreCutoff && row.negLog10P > SignificanceThreshold then Downregulated
    else NonSignificant
  }

  // ---------------------------------------------------------------------------
  // Reference definitions, stated over the caller's raw keyword list and the
  // positional meaning of "is a substring of".

  /** Keyword `k` of the raw list, once cleaned, occurs in the normalised name. */
  ghost predicate KeywordOccurs(name: string, keywords: seq<string>, k: int)
    requires 0 <= k < |keywords|
  {
    !IsBlank(keywords[k]) && IsSubstring(CleanKeyword(keywords[k]), NormaliseName(name))
  }

  /** The keyword condition: AND needs every non-blank keyword, OR needs one, any other logic none. */
  ghost predicate KeywordHit(name: string, keywords: seq<string>, logic: string) {
    if logic == "AND" then
      forall k :: 0 <= k < |keywords| && !IsBlank(keywords[k]) ==> KeywordOccurs(name, keywords, k)
    else if logic == "OR" then
      exists k :: 0 <= k < |keywords| && KeywordOccurs(name, keywords, k)
    else false
  }

  ghost predicate SignificantlyUp(row: Row) {
    row.score > 0.5 && row.negLog10P > SignificanceThreshold
  }

  ghost predicate SignificantlyDown(row: Row) {
    row.score < -0.5 && row.negLog10P > SignificanceThreshold
  }

  // ---------------------------------------------------------------------------
  // Keyword cleaning

  /** Each entry of the cleaned list is the cleaned form of some non-blank raw keyword. */
  lemma {:induction false} CleanedComesFromKeyword(keywords: seq<string>, j: nat)
    requires j < |CleanKeywords(keywords)|
    ensures exists k :: 0 <= k < |keywords| && !IsBlank(keywords[k]) && CleanKeywords(keywords)[j] == CleanKeyword(keywords[k])
  {
    var rest := CleanKeywords(keywords[1..]);
    var x := CleanKeywords(keywords)[j];
    if IsBlank(keywords[0]) {
      assert CleanKeywords(keywords) == rest;
      CleanedComesFromKeyword(keywords[1..], j);
      var k :| 0 <= k < |keywords[1..]| && !IsBlank(keywords[1..][k]) && rest[j] == CleanKeyword(keywords[1..][k]);
      assert keywords[k + 1] == keywords[1..][k];
      assert !IsBlank(keywords[k + 1]) && x == CleanKeyword(keywords[k + 1]);
    } else if j == 0 {
      assert CleanKeywords(keywords) == [CleanKeyword(keywords[0])] + rest;
      assert !IsBlank(keywords[0]) && x == CleanKeyword(keywords[0]);
    } else {
      assert CleanKeywords(keywords) == [CleanKeyword(keywords[0])] + rest;
      CleanedComesFromKeyword(keywords[1..], j - 1);
      var k :| 0 <= k < |keywords[1..]| && !IsBlank(keywords[1..][k]) && rest[j - 1] == CleanKeyword(keywords[1..][k]);
      assert keywords[k + 1] == keywords[1..][k];
      assert !IsBlank(keywords[k + 1]) && x == CleanKeyword(keywords[k + 1]);
    }
  }

  /** Each non-blank raw keyword reaches the cleaned list in cleaned form. */
  lemma {:induction false} KeywordReachesCleaned(keywords: seq<string>, k: nat)
    requires k < |keywords| && !IsBlank(keywords[k])
    ensures CleanKeyword(keywords[k]) in CleanKeywords(keywords)
  {
    var rest := CleanKeywords(keywords[1..]);
    if k == 0 {
      assert CleanKeywords(keywords) == [CleanKeyword(keywords[0])] + rest;
    } else {
      KeywordReachesCleaned(keywords[1..], k - 1);
      assert keywords[1..][k - 1] == keywords[k];
      if IsBlank(keywords[0]) {
        assert CleanKeywords(keywords) == rest;
      } else {
        assert CleanKeywords(keywords) == [CleanKeyword(keywords[0])] + rest;
      }
    }
  }

  /** The cleaned list holds exactly the cleaned forms of the non-blank raw keywords. */
  lemma CleanKeywordsMembers(keywords: seq<string>, x: string)
    ensures x in CleanKeywords(keywords) <==>
      exists k :: 0 <= k < |keywords| && !IsBlank(keywords[k]) && x == CleanKeyword(keywords[k])
  {
    if x in CleanKeywords(keywords) {
      var j :| 0 <= j < |CleanKeywords(keywords)| && CleanKeywords(keywords)[j] == x;
      CleanedComesFromKeyword(keywords, j);
    }
    if exists k :: 0 <= k < |keywords| && !IsBlank(keywords[k]) && x == CleanKeyword(keywords[k]) {
      var k :| 0 <= k < |keywords| && !IsBlank(keywords[k]) && x == CleanKeyword(keywords[k]);
      KeywordReachesCleaned(keywords, k);
    }
  }

  /** A cleaned keyword is non-empty, has no lower-case ASCII letter and no surrounding whitespace. */
  lemma CleanKeywordIsNormal(keyword: string)
    requires !IsBlank(keyword)
    ensures var x := CleanKeyword(keyword);
      x != "" && !IsSpace(x[0]) && !IsSpace(x[|x| - 1]) && forall i :: 0 <= i < |x| ==> !IsLower(x[i])
  {
    UpperKeepsBlankness(keyword);
    var u := Upper(keyword);
    StripMeaning(u);
    var x := CleanKeyword(keyword);
    assert x == u[LeadingSpaces(u)..LeadingSpaces(u) + |x|];
    forall i | 0 <= i < |x| ensures !IsLower(x[i]) {
      assert x[i] == u[LeadingSpaces(u) + i];
    }
  }

  /** The cleaned list is empty exactly when every raw keyword is blank. */
  lemma CleanKeywordsEmpty(keywords: seq<string>)
    ensures CleanKeywords(keywords) == [] <==> forall k :: 0 <= k < |keywords| ==> IsBlank(keywords[k])
  {
    if CleanKeywords(keywords) != [] {
      CleanedComesFromKeyword(keywords, 0);
    }
    if exists k :: 0 <= k < |keywords| && !IsBlank(keywords[k]) {
      var k :| 0 <= k < |keywords| && !IsBlank(keywords[k]);
      KeywordReachesCleaned(keywords, k);
    }
  }

  // ---------------------------------------------------------------------------
  // Properties of get_category

  lemma KeywordConditionMeaning(row: Row, keywords: seq<string>, logic: string)
    ensures (logic == "AND" && AllKeywordsIn(CleanKeywords(keywords), NormaliseName(row.name)))
         || (logic == "OR" && AnyKeywordIn(CleanKeywords(keywords), NormaliseName(row.name)))
        <==> KeywordHit(row.name, keywords, logic)
  {
    var name := NormaliseName(row.name);
    var cleaned := CleanKeywords(keywords);
    forall x | x in cleaned ensures Contains(name, x) <==> IsSubstring(x, name) {
      ContainsIsSubstring(name, x);
    }
    if logic == "AND" {
      if AllKeywordsIn(cleaned, name) {
        forall k | 0 <= k < |keywords| && !IsBlank(keywords[k])
          ensures KeywordOccurs(row.name, keywords, k)
        {
          KeywordReachesCleaned(keywords, k);
          var j :| 0 <= j < |cleaned| && cleaned[j] == CleanKeyword(keywords[k]);
        }
      }
      if KeywordHit(row.name, keywords, logic) {
        forall j | 0 <= j < |cleaned| ensures Contains(name, cleaned[j]) {
          CleanedComesFromKeyword(keywords, j);
          var k :| 0 <= k < |keywords| && !IsBlank(keywords[k]) && cleaned[j] == CleanKeyword(keywords[k]);
          assert KeywordOccurs(row.name, keywords, k);
        }
      }
    } else if logic == "OR" {
      if AnyKeywordIn(cleaned, name) {
        var j :| 0 <= j < |cleaned| && Contains(name, cleaned[j]);
        CleanedComesFromKeyword(keywords, j);
        var k :| 0 <= k < |keywords| && !IsBlank(keywords[k]) && cleaned[j] == CleanKeyword(keywords[k]);
        assert KeywordOccurs(row.name, keywords, k);
      }
      if KeywordHit(row.name, keywords, logic) {
        var k :| 0 <= k < |keywords| && KeywordOccurs(row.name, keywords, k);
        KeywordReachesCleaned(keywords, k);
        var j :| 0 <= j < |cleaned| && cleaned[j] == CleanKeyword(keywords[k]);
        assert Contains(name, cleaned[j]);
      }
    }
  }

  /**
   * The whole decision of get_category against the reference definitions:
   * a keyword hit wins; otherwise up, down or non-significant by strict comparisons.
   */
  lemma GetCategoryMeaning(row: Row, keywords: seq<string>, logic: string)
    ensures GetCategory(row, keywords, logic) == KeywordMatch <==> KeywordHit(row.name, keywords, logic)
    ensures GetCategory(row, keywords, logic) == Upregulated <==>
      !KeywordHit(row.name, keywords, logic) && SignificantlyUp(row)
    ensures GetCategory(row, keywords, logic) == Downregulated <==>
      !KeywordHit(row.name, keywords, logic) && SignificantlyDown(row)
    ensures GetCategory(row, keywords, logic) == NonSignificant <==>
      !KeywordHit(row.name, keywords, logic) && !SignificantlyUp(row) && !SignificantlyDown(row)
  {
    KeywordConditionMeaning(row, keywords, logic);
  }

  /** With AND, a row matches iff every non-blank keyword, cleaned, occurs in its normalised name. */
  lemma AndLogic(row: Row, keywords: seq<string>)
    ensures GetCategory(row, keywords, "AND") == KeywordMatch <==>
      forall k :: 0 <= k < |keywords| && !IsBlank(keywords[k]) ==>
        IsSubstring(CleanKeyword(keywords[k]), NormaliseName(row.name))
  {
    GetCategoryMeaning(row, keywords, "AND");
  }

  /** With AND and only blank keywords (or none), every row is a keyword match: `all([])` holds. */
  lemma AndWithBlankKeywordsMatchesEveryRow(row: Row, keywords: seq<string>)
    requires forall k :: 0 <= k < |keywords| ==> IsBlank(keywords[k])
    ensures GetCategory(row, keywords, "AND") == KeywordMatch
  {
    CleanKeywordsEmpty(keywords);
  }

  /** With OR, a row matches iff some non-blank keyword, cleaned, occurs in its normalised name. */
  lemma OrLogic(row: Row, keywords: seq<string>)
    ensures GetCategory(row, keywords, "OR") == KeywordMatch <==>
      exists k :: 0 <= k < |keywords| && !IsBlank(keywords[k]) &&
        IsSubstring(CleanKeyword(keywords[k]), NormaliseName(row.name))
  {
    GetCategoryMeaning(row, keywords, "OR");
    if exists k :: 0 <= k < |keywords| && !IsBlank(keywords[k]) &&
        IsSubstring(CleanKeyword(keywords[k]), NormaliseName(row.name)) {
      var k :| 0 <= k < |keywords| && !IsBlank(keywords[k]) &&
        IsSubstring(CleanKeyword(keywords[k]), NormaliseName(row.name));
      assert KeywordOccurs(row.name, keywords, k);
    }
  }

  /** With OR and only blank keywords (or none), no row is a keyword match: `any([])` fails. */
  lemma OrWithBlankKeywordsMatchesNoRow(row: Row, keywords: seq<string>)
    requires forall k :: 0 <= k < |keywords| ==> IsBlank(keywords[k])
    ensures GetCategory(row, keywords, "OR") != KeywordMatch
  {
    CleanKeywordsEmpty(keywords);
  }

  /** A logic value other than "AND" or "OR" skips keyword matching: the keywords play no part. */
  lemma OtherLogicIgnoresKeywords(row: Row, keywords: seq<string>, logic: string)
    requires logic != "AND" && logic != "OR"
    ensures GetCategory(row, keywords, logic) != KeywordMatch
    ensures SignificantlyUp(row) <==> GetCategory(row, keywords, logic) == Upregulated
    ensures SignificantlyDown(row) <==> GetCategory(row, keywords, logic) == Downregulated
  {
    GetCategoryMeaning(row, keywords, logic);
  }

  /**
   * Keyword matching takes precedence and depends on the name alone: two rows
   * with the same name agree on being a keyword match, whatever their scores
   * and p-values.
   */
  lemma KeywordPrecedence(name: string, s1: real, p1: real, s2: real, p2: real, keywords: seq<string>, logic: string)
    ensures GetCategory(Row(name, s1, p1), keywords, logic) == KeywordMatch <==>
            GetCategory(Row(name, s2, p2), keywords, logic) == KeywordMatch
    ensures KeywordHit(name, keywords, logic) ==> GetCategory(Row(name, s1, p1), keywords, logic) == KeywordMatch
  {
    GetCategoryMeaning(Row(name, s1, p1), keywords, logic);
    GetCategoryMeaning(Row(name, s2, p2), keywords, logic);
  }

  /** Matching ignores case and treats `_` as a space: names with the same normal form are classified alike. */
  lemma MatchingUsesNormalisedName(r1: Row, r2: Row, keywords: seq<string>, logic: string)
    requires NormaliseName(r1.name) == NormaliseName(r2.name)
    requires r1.score == r2.score && r1.negLog10P == r2.negLog10P
    ensures GetCategory(r1, keywords, logic) == GetCategory(r2, keywords, logic)
  {
  }

  /** The thresholds are strict: a score of exactly +/-0.5, or -log10(p) exactly at the cut-off, is never up or down. */
  lemma StrictThresholds(row: Row, keywords: seq<string>, logic: string)
    requires row.score == 0.5 || row.score == -0.5 || row.negLog10P == SignificanceThreshold
    ensures GetCategory(row, keywords, logic) in {KeywordMatch, NonSignificant}
    ensures !KeywordHit(row.name, keywords, logic) ==> GetCategory(row, keywords, logic) == NonSignificant
  {
    GetCategoryMeaning(row, keywords, logic);
  }

  /** The four categories carry four different labels, so each row carries exactly one of them. */
  lemma LabelsDistinct(c: Category, d: Category)
    requires c != d
    ensures Label(c) != Label(d)
  {
  }
  /** Cleaning a single clean keyword leaves it as it is. */
  lemma CleanWnt()
    ensures CleanKeywords(["WNT"]) == ["WNT"]
  {
    assert Upper("WNT") == "WNT";
    StripWnt();
    assert ["WNT"][1..] == [];
  }

  lemma StripWnt()
    ensures Strip("WNT") == "WNT"
  {
    assert LeadingSpaces("WNT") == 0;
    assert TrailingSpaces("WNT") == 0;
  }

  /** Cleaning upper-cases a keyword. */
  lemma CleanLowerWnt()
    ensures CleanKeywords(["wnt"]) == ["WNT"]
  {
    assert Upper("wnt") == "WNT";
    assert Strip("wnt") == "wnt" by {
      assert LeadingSpaces("wnt") == 0 && TrailingSpaces("wnt") == 0;
    }
    StripWnt();
    assert ["wnt"][1..] == [];
  }

  lemma NameWntSignaling()
    ensures NormaliseName("WNT_SIGNALING") == "WNT SIGNALING"
  {
    assert Replace("WNT_SIGNALING", '_', ' ') == "WNT SIGNALING";
  }

  lemma NameApoptosis()
    ensures NormaliseName("APOPTOSIS") == "APOPTOSIS"
  {
    assert Replace("APOPTOSIS", '_', ' ') == "APOPTOSIS";
  }

  lemma NameCellCycle()
    ensures NormaliseName("CELL_CYCLE") == "CELL CYCLE"
  {
    assert Replace("CELL_CYCLE", '_', ' ') == "CELL CYCLE";
  }

  lemma NameWntPathway()
    ensures NormaliseName("wnt_pathway") == "WNT PATHWAY"
  {
    assert Replace("wnt_pathway", '_', ' ') == "wnt pathway";
    assert Upper("wnt pathway") == "WNT PATHWAY";
  }

  /** Worked example: "WNT" under AND marks WNT_SIGNALING as a keyword match although it is also significantly up. */
  lemma ExampleAndMatch()
    ensures GetCategory(Row("WNT_SIGNALING", 0.8, SignificanceThreshold + 1.0), ["WNT"], "AND") == KeywordMatch
  {
    CleanWnt();
    NameWntSignaling();
    assert Contains("WNT SIGNALING", "WNT") by {
      assert "WNT SIGNALING"[..3] == "WNT";
    }
  }

  /** Worked example: a row the keyword misses and that is significantly down is downregulated. */
  lemma ExampleFallbackDown()
    ensures GetCategory(Row("APOPTOSIS", -0.7, SignificanceThreshold + 0.5), ["WNT"], "AND") == Downregulated
  {
    CleanWnt();
    NameApoptosis();
    FirstCharAbsent("APOPTOSIS", "WNT");
  }

  /** Worked example: a row the keyword misses and that is not significant is non-significant. */
  lemma ExampleFallbackNonSignificant()
    ensures GetCategory(Row("CELL_CYCLE", 0.1, 0.0), ["WNT"], "AND") == NonSignificant
  {
    CleanWnt();
    NameCellCycle();
    FirstCharAbsent("CELL CYCLE", "WNT");
  }

  lemma WntInWntPathway()
    ensures AnyKeywordIn(["WNT"], "WNT PATHWAY")
  {
    assert "WNT PATHWAY"[..3] == "WNT";
    assert Contains("WNT PATHWAY", ["WNT"][0]);
  }

  lemma WntPathwayHit()
    ensures AnyKeywordIn(CleanKeywords(["wnt"]), NormaliseName("wnt_pathway"))
  {
    CleanLowerWnt();
    NameWntPathway();
    WntInWntPathway();
  }

  /** Worked example: under OR a lower-case keyword matches a name written with underscores. */
  lemma ExampleOrMatch()
    ensures GetCategory(Row("wnt_pathway", 0.0, 0.0), ["wnt"], "OR") == KeywordMatch
  {
    WntPathwayHit();
  }
}
