# Volcano-plot pathway classifier and plot grouping, in Dafny

This project models the core of the Streamlit volcano-plot script
`SAMENT_data_mining/macrophages_biotin_positive-vs-negative_GSVA.py`. The
script takes a table of GSVA pathway results. Each row has a pathway name, a
GSVA score and −log10 of its p-value. The model covers three parts of it:

- `get_category`, which gives every row exactly one of four categories:
  `keyword_match`, `upregulated`, `downregulated` or `non-significant`.
  - A row is a keyword match when its normalised name contains the cleaned
    keywords: all of them under the logic `"AND"`, any of them under `"OR"`.
    The name is normalised by turning `_` into a space and then upper-casing
    it. Keywords are cleaned by dropping blank entries, then upper-casing and
    stripping the rest.
  - Otherwise the row is classified by strict comparisons of its score with
    ±0.5 and of −log10 p with −log10(0.05).
- The data side of `update_plot`.
  - It overwrites the table's `category` column in place.
  - It splits the rows into the four category groups, each in table order.
  - It adds one trace per group to a plotly figure: non-significant, up, down,
    then the keyword group.
  - In non-interactive mode it numbers the keyword points `"1".."n"`.
  - The keyword layer's legend name is `', '.join(keywords)` over the caller's
    raw keyword list.
  - It sets the figure layout.
- The Python string operations these rely on: `upper`, `replace`, `strip`,
  `in`, `join` and `str(int)`.

Modules:

- `Text` (`text.dfy`): the string operations.
  - `Contains` is proved equal to a positional definition of "is a substring".
  - `Strip` is characterised by what it removes.
  - `NatToString` is proved to round-trip through `ParseNat`.
- `Classifier` (`classifier.dfy`):
  - `Row`, `Category` and `GetCategory`.
  - Reference definitions `KeywordHit`, `SignificantlyUp` and
    `SignificantlyDown`. These are stated over the raw keyword list, and
    `GetCategoryMeaning` proves `GetCategory` against them.
- `VolcanoPlot` (`volcano_plot.dfy`):
  - the shared data frame as class `Table`, whose `category` column
    `ApplyCategories` rewrites in a loop;
  - the figure as class `Figure`, which `AddTrace` and `UpdateLayout` grow;
  - the group filter (`Positions`, `Select`), the traces and `UpdatePlot`.

The significance cut-off `SignificanceThreshold` stands for −log10(0.05)
(about 1.30103). It is an abstract positive real: the only fact the proofs use
is that it is positive.

Where the code's behaviour may be surprising, the model follows the code:

- Under `"AND"`, a keyword list that is empty after cleaning makes every row a
  keyword match, because `all([])` is true (lines 38–43). This includes the
  default call `update_plot()`. Under `"OR"` such a list never matches.
- A logic value other than `"AND"` or `"OR"` skips keyword matching.
- The keyword group is not sorted by p-value. Its ordinal labels follow table
  order (lines 134, 170), and no sorted match table is produced.
- The legend name joins the raw keyword list, blank entries included.
- As stored, the body of `update_plot` (lines 59–190) is indented at the same
  level as its `def` (line 58). The model takes those lines to be the
  function's body.

## Model

| member | source | states |
|---|---|---|
| `Text.ContainsIsSubstring` | SAMENT_data_mining/macrophages_biotin_positive-vs-negative_GSVA.py:42-46 | the search behind `keyword in pathway_name` is true exactly when the keyword occurs at some position of the name |
| `Text.StripMeaning` | SAMENT_data_mining/macrophages_biotin_positive-vs-negative_GSVA.py:38 | `strip()` yields the empty string iff every character is whitespace; otherwise the result neither starts nor ends with whitespace; it is a contiguous slice of the input with only whitespace cut from both ends |
| `Text.UpperKeepsBlankness` | SAMENT_data_mining/macrophages_biotin_positive-vs-negative_GSVA.py:38 | upper-casing a keyword does not change whether it is blank, and leaves no lower-case ASCII letter |
| `Text.NatToString` | SAMENT_data_mining/macrophages_biotin_positive-vs-negative_GSVA.py:170 | `str(n)` is a non-empty string of decimal digits without a leading zero |
| `Text.ParseNatToString` | SAMENT_data_mining/macrophages_biotin_positive-vs-negative_GSVA.py:170 | reading `str(n)` back as a decimal number gives `n` |
| `Text.NatToStringInjective` | SAMENT_data_mining/macrophages_biotin_positive-vs-negative_GSVA.py:170 | different numbers give different `str` labels |
| `Text.JoinLength` | SAMENT_data_mining/macrophages_biotin_positive-vs-negative_GSVA.py:153 | `sep.join(parts)` is as long as all parts together plus one separator per neighbouring pair, and it is empty when there are no parts |
| `Text.JoinContainsEveryPart` | SAMENT_data_mining/macrophages_biotin_positive-vs-negative_GSVA.py:153 | every part occurs verbatim in `sep.join(parts)` |
| `Text.IsSpace` | SAMENT_data_mining/macrophages_biotin_positive-vs-negative_GSVA.py:38 | `str.isspace()`, the characters `strip()` removes; `Text.StripMeaning` and the contracts of `Text.LeadingSpaces` and `Text.TrailingSpaces` use it to state what `strip()` cuts |
| `Text.UpperChar` | SAMENT_data_mining/macrophages_biotin_positive-vs-negative_GSVA.py:35-38 | `upper()` on one character, ASCII letters only; `Text.UpperKeepsBlankness` states it keeps whitespace and leaves no lower-case letter |
| `Text.Upper` | SAMENT_data_mining/macrophages_biotin_positive-vs-negative_GSVA.py:35-38 | `str.upper()` on ASCII letters; its meaning for the keyword test is given by `Text.UpperKeepsBlankness` and `Classifier.CleanKeywordIsNormal` |
| `Text.Replace` | SAMENT_data_mining/macrophages_biotin_positive-vs-negative_GSVA.py:35 | `str.replace` of one character by another; used by `Classifier.NormaliseName`, whose meaning is given by `Classifier.MatchingUsesNormalisedName` and the worked examples |
| `Text.Strip` | SAMENT_data_mining/macrophages_biotin_positive-vs-negative_GSVA.py:38 | `str.strip()`; `Text.StripMeaning` states that it cuts exactly the whitespace at both ends |
| `Text.Contains` | SAMENT_data_mining/macrophages_biotin_positive-vs-negative_GSVA.py:42-46 | `needle in hay`; `Text.ContainsIsSubstring` proves it true exactly when the needle occurs at some index |
| `Text.Join` | SAMENT_data_mining/macrophages_biotin_positive-vs-negative_GSVA.py:153 | `sep.join(parts)`; `Text.JoinLength`, `Text.JoinPlacesPart` and `Text.JoinPlacesSeparator` fix its length and where every part and separator sits |
| `Text.JoinPlacesPart` | SAMENT_data_mining/macrophages_biotin_positive-vs-negative_GSVA.py:153 | in `sep.join(parts)`, part k occurs verbatim right after the k parts before it and k separators |
| `Text.JoinPlacesSeparator` | SAMENT_data_mining/macrophages_biotin_positive-vs-negative_GSVA.py:153 | in `sep.join(parts)`, a separator follows every part but the last directly, so the parts appear in their order |
| `Classifier.Label` | SAMENT_data_mining/macrophages_biotin_positive-vs-negative_GSVA.py:43-55 | the four strings `get_category` returns; `Classifier.LabelsDistinct` states they are pairwise different |
| `Classifier.IsBlank` | SAMENT_data_mining/macrophages_biotin_positive-vs-negative_GSVA.py:38 | the filter `kw.strip() != ''` negated; `Classifier.CleanKeywordsEmpty` and `Classifier.KeywordReachesCleaned` state which keywords it drops |
| `Classifier.CleanKeyword` | SAMENT_data_mining/macrophages_biotin_positive-vs-negative_GSVA.py:38 | `kw.upper().strip()`; `Classifier.CleanKeywordIsNormal` states a cleaned non-blank keyword is non-empty, has no lower-case ASCII letter and no whitespace at either end |
| `Classifier.AllKeywordsIn` | SAMENT_data_mining/macrophages_biotin_positive-vs-negative_GSVA.py:42 | `all(keyword in pathway_name for keyword in keywords)`; `Classifier.KeywordConditionMeaning` equates it with the reference condition over the raw keywords |
| `Classifier.AnyKeywordIn` | SAMENT_data_mining/macrophages_biotin_positive-vs-negative_GSVA.py:46 | `any(keyword in pathway_name for keyword in keywords)`; `Classifier.KeywordConditionMeaning` equates it with the reference condition over the raw keywords |
| `Classifier.NormaliseName` | SAMENT_data_mining/macrophages_biotin_positive-vs-negative_GSVA.py:35 | `row.name.replace('_', ' ').upper()`; `Classifier.MatchingUsesNormalisedName` and the worked examples state its use |
| `Classifier.CleanKeywords` | SAMENT_data_mining/macrophages_biotin_positive-vs-negative_GSVA.py:38 | the cleaned keyword list; `Classifier.CleanKeywordsMembers`, `Classifier.CleanedComesFromKeyword`, `Classifier.KeywordReachesCleaned` and `Classifier.CleanKeywordsEmpty` give its meaning over the raw list |
| `Classifier.GetCategory` | SAMENT_data_mining/macrophages_biotin_positive-vs-negative_GSVA.py:34-55 | `get_category`; `Classifier.GetCategoryMeaning` states each of its four outcomes as an iff against reference conditions over the raw keywords and the thresholds |
| `Classifier.CleanedComesFromKeyword` | SAMENT_data_mining/macrophages_biotin_positive-vs-negative_GSVA.py:38 | every entry of the cleaned list is `kw.upper().strip()` of some raw keyword whose `strip()` is not empty |
| `Classifier.KeywordReachesCleaned` | SAMENT_data_mining/macrophages_biotin_positive-vs-negative_GSVA.py:38 | every non-blank raw keyword reaches the cleaned list as `kw.upper().strip()` |
| `Classifier.CleanKeywordsMembers` | SAMENT_data_mining/macrophages_biotin_positive-vs-negative_GSVA.py:38 | a string is in the cleaned list iff it is the cleaned form of a non-blank raw keyword |
| `Classifier.CleanKeywordIsNormal` | SAMENT_data_mining/macrophages_biotin_positive-vs-negative_GSVA.py:38 | a cleaned keyword is non-empty, has no lower-case ASCII letter and no leading or trailing whitespace |
| `Classifier.CleanKeywordsEmpty` | SAMENT_data_mining/macrophages_biotin_positive-vs-negative_GSVA.py:38 | the cleaned list is empty iff every raw keyword is blank |
| `Classifier.KeywordConditionMeaning` | SAMENT_data_mining/macrophages_biotin_positive-vs-negative_GSVA.py:35-47 | the `all`/`any` tests over the cleaned list hold exactly when the reference keyword condition over the raw list holds |
| `Classifier.GetCategoryMeaning` | SAMENT_data_mining/macrophages_biotin_positive-vs-negative_GSVA.py:34-55 | keyword_match iff the keyword condition holds. Otherwise: upregulated iff score > 0.5 and −log10 p > threshold; downregulated iff score < −0.5 and −log10 p > threshold; non-significant iff neither |
| `Classifier.AndLogic` | SAMENT_data_mining/macrophages_biotin_positive-vs-negative_GSVA.py:40-43 | with `"AND"`, keyword_match iff every non-blank keyword, upper-cased and stripped, occurs in the name with `_` turned into a space and upper-cased |
| `Classifier.AndWithBlankKeywordsMatchesEveryRow` | SAMENT_data_mining/macrophages_biotin_positive-vs-negative_GSVA.py:38-43 | with `"AND"` and only blank keywords, or none, every row is keyword_match |
| `Classifier.OrLogic` | SAMENT_data_mining/macrophages_biotin_positive-vs-negative_GSVA.py:44-47 | with `"OR"`, keyword_match iff some non-blank keyword, upper-cased and stripped, occurs in the normalised name |
| `Classifier.OrWithBlankKeywordsMatchesNoRow` | SAMENT_data_mining/macrophages_biotin_positive-vs-negative_GSVA.py:38-47 | with `"OR"` and only blank keywords, or none, no row is keyword_match |
| `Classifier.OtherLogicIgnoresKeywords` | SAMENT_data_mining/macrophages_biotin_positive-vs-negative_GSVA.py:40-55 | any logic other than `"AND"`/`"OR"` never yields keyword_match; up and down are then decided by the thresholds alone |
| `Classifier.KeywordPrecedence` | SAMENT_data_mining/macrophages_biotin_positive-vs-negative_GSVA.py:40-55 | whether a row is keyword_match depends only on its name, whatever its score and p-value; a keyword hit always gives keyword_match |
| `Classifier.MatchingUsesNormalisedName` | SAMENT_data_mining/macrophages_biotin_positive-vs-negative_GSVA.py:35 | rows whose names agree after `_`→space and upper-casing, and whose numbers agree, get the same category |
| `Classifier.StrictThresholds` | SAMENT_data_mining/macrophages_biotin_positive-vs-negative_GSVA.py:50-55 | score exactly ±0.5, or −log10 p exactly at the threshold, never gives up or down: such a row is keyword_match or non-significant, and non-significant when the keywords miss |
| `Classifier.LabelsDistinct` | SAMENT_data_mining/macrophages_biotin_positive-vs-negative_GSVA.py:43-55 | the four category labels are pairwise different strings |
| `Classifier.ExampleAndMatch` | SAMENT_data_mining/macrophages_biotin_positive-vs-negative_GSVA.py:34-55 | `WNT_SIGNALING` with keyword `WNT` under `"AND"` is keyword_match although it is also significantly up |
| `Classifier.ExampleFallbackDown` | SAMENT_data_mining/macrophages_biotin_positive-vs-negative_GSVA.py:50-53 | `APOPTOSIS`, which `WNT` misses, with score −0.7 and −log10 p above the threshold, is downregulated |
| `Classifier.ExampleFallbackNonSignificant` | SAMENT_data_mining/macrophages_biotin_positive-vs-negative_GSVA.py:50-55 | `CELL_CYCLE`, which `WNT` misses, with score 0.1, is non-significant |
| `Classifier.ExampleOrMatch` | SAMENT_data_mining/macrophages_biotin_positive-vs-negative_GSVA.py:35-47 | the lower-case keyword `wnt` under `"OR"` matches `wnt_pathway` |
| `VolcanoPlot.Table.ApplyCategories` | SAMENT_data_mining/macrophages_biotin_positive-vs-negative_GSVA.py:60 | the `category` column is overwritten with `get_category` of each row, in row order |
| `VolcanoPlot.Categorize` | SAMENT_data_mining/macrophages_biotin_positive-vs-negative_GSVA.py:60 | the new `category` column; `VolcanoPlot.Table.ApplyCategories` and `VolcanoPlot.UpdatePlot` state it is `get_category` of each row in order |
| `VolcanoPlot.Positions` | SAMENT_data_mining/macrophages_biotin_positive-vs-negative_GSVA.py:74-134 | the positions the mask `df['category'] == c` keeps; its own contract bounds them by the table, and `VolcanoPlot.PositionsMeaning` gives their meaning |
| `VolcanoPlot.Select` | SAMENT_data_mining/macrophages_biotin_positive-vs-negative_GSVA.py:74-134 | `df[df['category'] == c]`; `VolcanoPlot.GroupKeepsTableOrder` and `VolcanoPlot.GroupsPartitionTable` give its meaning |
| `VolcanoPlot.PositionsMeaning` | SAMENT_data_mining/macrophages_biotin_positive-vs-negative_GSVA.py:74 | the mask `df['category'] == c` keeps exactly the positions of category c, in strictly increasing table order |
| `VolcanoPlot.GroupsPartitionTable` | SAMENT_data_mining/macrophages_biotin_positive-vs-negative_GSVA.py:74-134 | the four filtered groups partition the table: each row is in the group of its own category and no other, and the group sizes sum to the table size |
| `VolcanoPlot.GroupKeepsTableOrder` | SAMENT_data_mining/macrophages_biotin_positive-vs-negative_GSVA.py:74-134 | a group holds exactly the rows of its category, and entry k of the group is the row at the k-th position of that category: some strictly increasing list of positions, covering exactly the rows of the category, picks the group's entries in order |
| `VolcanoPlot.EveryRowInKeywordGroup` | SAMENT_data_mining/macrophages_biotin_positive-vs-negative_GSVA.py:74-134 | when every row is keyword_match, the keyword group is the whole table in order and the other three groups are empty |
| `VolcanoPlot.DefaultArgumentsMarkEveryRow` | SAMENT_data_mining/macrophages_biotin_positive-vs-negative_GSVA.py:58-60 | `update_plot()` with its defaults (`keywords=[]`, `logic='AND'`) puts the whole table in the keyword group with an empty legend name |
| `VolcanoPlot.Figure.constructor` | SAMENT_data_mining/macrophages_biotin_positive-vs-negative_GSVA.py:71 | a new figure has no traces and the default layout |
| `VolcanoPlot.Figure.AddTrace` | SAMENT_data_mining/macrophages_biotin_positive-vs-negative_GSVA.py:75 | `add_trace` appends one trace and leaves the rest of the figure unchanged |
| `VolcanoPlot.Figure.UpdateLayout` | SAMENT_data_mining/macrophages_biotin_positive-vs-negative_GSVA.py:178-188 | `update_layout` sets the layout and leaves the traces unchanged |
| `VolcanoPlot.Scores` | SAMENT_data_mining/macrophages_biotin_positive-vs-negative_GSVA.py:76 | the `x=` column of a group; `VolcanoPlot.TraceHoldsGroup` states point k's x is the score of the k-th row of the category |
| `VolcanoPlot.NegLog10Ps` | SAMENT_data_mining/macrophages_biotin_positive-vs-negative_GSVA.py:77 | the `y=` column of a group; `VolcanoPlot.TraceHoldsGroup` states point k's y is the −log10 p of the k-th row of the category |
| `VolcanoPlot.HoverTexts` | SAMENT_data_mining/macrophages_biotin_positive-vs-negative_GSVA.py:88 | the hover texts of a group; `VolcanoPlot.TraceHoldsGroup` states text k is the hover span of the k-th row's name |
| `VolcanoPlot.TraceCategory` | SAMENT_data_mining/macrophages_biotin_positive-vs-negative_GSVA.py:74-134 | the category of the t-th trace added: non-significant, up, down, keyword match; `VolcanoPlot.TraceHoldsGroup` and `VolcanoPlot.TracesDrawEveryRowOnce` use it to state what each trace holds |
| `VolcanoPlot.Palette` | SAMENT_data_mining/macrophages_biotin_positive-vs-negative_GSVA.py:63-68 | the colour of each category; `VolcanoPlot.PaletteDistinct` states the four differ |
| `VolcanoPlot.HoverText` | SAMENT_data_mining/macrophages_biotin_positive-vs-negative_GSVA.py:88 | the hover span of one pathway; `VolcanoPlot.HoverTextShowsName` states the raw name sits in it after the colour prefix |
| `VolcanoPlot.OrdinalLabels` | SAMENT_data_mining/macrophages_biotin_positive-vs-negative_GSVA.py:170 | `[str(i+1) for i in range(n)]`; `VolcanoPlot.OrdinalLabelsNumberFromOne` gives its meaning |
| `VolcanoPlot.KeywordLegend` | SAMENT_data_mining/macrophages_biotin_positive-vs-negative_GSVA.py:153 | `', '.join(keywords)` over the raw list; `VolcanoPlot.KeywordLegendLayout` spells it out |
| `VolcanoPlot.CategoryTrace` | SAMENT_data_mining/macrophages_biotin_positive-vs-negative_GSVA.py:74-130 | one of the three significance traces; `VolcanoPlot.TraceHoldsGroup` and `VolcanoPlot.TracesDrawEveryRowOnce` state its points and texts |
| `VolcanoPlot.KeywordTrace` | SAMENT_data_mining/macrophages_biotin_positive-vs-negative_GSVA.py:134-175 | the keyword trace in its two modes; `VolcanoPlot.KeywordTraceShape` states size, colour, points, mode, texts and legend |
| `VolcanoPlot.VolcanoTraces` | SAMENT_data_mining/macrophages_biotin_positive-vs-negative_GSVA.py:73-175 | the four traces in the order they are added; `VolcanoPlot.TraceHoldsGroup` and `VolcanoPlot.TracesDrawEveryRowOnce` give their contents |
| `VolcanoPlot.VolcanoLayout` | SAMENT_data_mining/macrophages_biotin_positive-vs-negative_GSVA.py:178-188 | the fields `update_layout` sets, with the given width and height; `VolcanoPlot.UpdatePlot` states the figure ends with it |
| `VolcanoPlot.UpdatePlot` | SAMENT_data_mining/macrophages_biotin_positive-vs-negative_GSVA.py:58-190 | after the call, the table's category column holds each row's `get_category`; the new figure holds the four traces built from the category groups, in order, and the volcano layout with the given width and height |
| `VolcanoPlot.TraceHoldsGroup` | SAMENT_data_mining/macrophages_biotin_positive-vs-negative_GSVA.py:74-175 | trace t has one point per row of its category, in table order: point k is at (score, −log10 p) of the k-th such row, and its text is the hover span of that row's name as it is in the table in the colour of the category, except in the non-interactive keyword trace, where it is `str(k+1)` |
| `VolcanoPlot.TracesDrawEveryRowOnce` | SAMENT_data_mining/macrophages_biotin_positive-vs-negative_GSVA.py:74-175 | the four traces together draw every row exactly once, each at (score, −log10 p) in the trace of its category |
| `VolcanoPlot.OrdinalLabelsNumberFromOne` | SAMENT_data_mining/macrophages_biotin_positive-vs-negative_GSVA.py:170 | `[str(i+1) for i in range(n)]` has n labels; label k reads as k+1 and has no leading zero, which makes it `str(k+1)`; the labels are pairwise distinct |
| `VolcanoPlot.KeywordTraceShape` | SAMENT_data_mining/macrophages_biotin_positive-vs-negative_GSVA.py:136-175 | the keyword trace has marker size 15 in the keyword colour, at the group's (score, −log10 p). Interactive: markers with hover names. Non-interactive: markers+text with point k labelled k+1, written without a leading zero. Its legend name is the same in both modes and contains every raw keyword verbatim |
| `VolcanoPlot.KeywordLegendLayout` | SAMENT_data_mining/macrophages_biotin_positive-vs-negative_GSVA.py:153 | the legend name is all raw keywords, blank ones included, in their order: keyword k starts after the k keywords before it and k separators, a `", "` follows every keyword but the last, and the length is the keywords' total plus 2 per separator, so nothing else is in it; it is empty for no keywords |
| `VolcanoPlot.HoverTextShowsName` | SAMENT_data_mining/macrophages_biotin_positive-vs-negative_GSVA.py:88 | the hover text shows the pathway name exactly as it is in the table, not its normalised form |
| `VolcanoPlot.PaletteDistinct` | SAMENT_data_mining/macrophages_biotin_positive-vs-negative_GSVA.py:63-68 | the four categories have four different colours |

## Left out

- `load_data` (lines 12–28) is not modelled: the file lookup, `pd.read_csv`,
  Streamlit caching and the `st.error` report. The table arrives as a sequence
  of `Row` values, whose names are taken as already stripped (line 26).
- `SignificanceThreshold` is not computed: `-np.log10(0.05)` and the
  `-log10(adj.P.Val)` column (lines 27, 50, 52) are floating point. Reals
  stand in for floats, so NaN scores or p-values are not modelled. With NaN,
  every comparison is false and the row would be non-significant
  unless the keywords match (lines 40–47 return before the comparisons).
- `Text.UpperChar` upper-cases ASCII letters only. Python's Unicode
  upper-casing, which can also change a string's length (`ß` → `SS`), is not
  modelled. `strip()` uses Python's full whitespace set.
- Not modelled in the plotly styling: marker opacity and outline,
  `hoverinfo`, `textposition`, `textfont` (lines 82–89, 145–152, 164–173), and
  the rendering itself. The traces keep the points, mode, marker size, colour,
  per-point text and legend name. The layout keeps the fields set by
  `update_layout`.
- How pandas handles an empty table in `df.apply(..., axis=1)` is not
  modelled. The model gives four empty groups.
- The Streamlit sidebar, the form and image export are not modelled. The
  script's text ends at line 190, and those parts are not part of this model.
- `VolcanoPlot.TracesDrawEveryRowOnce` states each point's coordinates and
  group, not its text. The text of every point of every trace is stated by
  `VolcanoPlot.TraceHoldsGroup`.
