/**
 * The data side of `update_plot`: it writes a fresh `category` column into the
 * shared table, splits the rows into the four category groups in table order,
 * and grows a figure trace by trace. In non-interactive mode the keyword group
 * is labelled "1".."n". The keyword layer's legend name is the caller's raw
 * keyword list joined with ", ".
 */
module VolcanoPlot {
  import opened Text
  import opened Classifier

  /** The shared data frame: rows loaded once, and a `category` column rewritten on every call. */
  class Table {
    const rows: seq<Row>
    var category: seq<Category>

    constructor (rows: seq<Row>)
      ensures this.rows == rows && category == []
    {
      this.rows := rows;
      category := [];
    }

    /** `df['category'] = df.apply(get_category, axis=1, keywords=keywords, logic=logic)` */
    method ApplyCategories(keywords: seq<string>, logic: string)
      modifies this
      ensures category == Categorize(rows, keywords, logic)
    {
      var column: seq<Category> := [];
      for i := 0 to |rows|
        invariant |column| == i
        invariant forall j :: 0 <= j < i ==> column[j] == GetCategory(rows[j], keywords, logic)
      {
        column := column + [GetCategory(rows[i], keywords, logic)];
      }
      category := column;
    }
  }

  /** The category column that get_category gives the rows, one entry per row. */
  function Categorize(rows: seq<Row>, keywords: seq<string>, logic: string): seq<Category> {
    seq(|rows|, i requires 0 <= i < |rows| => GetCategory(rows[i], keywords, logic))
  }

  /**
   * The table positions whose category is `c`, in increasing order: the rows
   * that the mask `df['category'] == c` keeps.
   */
  function Positions(cats: seq<Category>, c: Category): (p: seq<nat>)
    ensures forall k :: 0 <= k < |p| ==> p[k] < |cats|
  {
    if cats == [] then []
    else Positions(cats[..|cats| - 1], c) + (if cats[|cats| - 1] == c then [|cats| - 1] else [])
  }

  /** The positions of `c` are exactly the entries equal to `c`, listed in strictly increasing order. */
  lemma {:induction false} PositionsMeaning(cats: seq<Category>, c: Category)
    ensures forall k :: 0 <= k < |Positions(cats, c)| ==> cats[Positions(cats, c)[k]] == c
    ensures forall k, l :: 0 <= k < l < |Positions(cats, c)| ==> Positions(cats, c)[k] < Positions(cats, c)[l]
    ensures forall i :: 0 <= i < |cats| && cats[i] == c ==> i in Positions(cats, c)
  {
    if cats != [] {
      PositionsMeaning(cats[..|cats| - 1], c);
    }
  }

  /** `df[df['category'] == c]` */
  function Select(rows: seq<Row>, cats: seq<Category>, c: Category): seq<Row>
    requires |cats| == |rows|
  {
    var p := Positions(cats, c);
    seq(|p|, k requires 0 <= k < |p| => rows[p[k]])
  }

  /**
   * The four groups partition the table: every position lies in the group of
   * its own category and in no other, and the group sizes add up to the table size.
   */
  lemma GroupsPartitionTable(cats: seq<Category>)
    ensures forall i, c :: 0 <= i < |cats| ==> (i in Positions(cats, c) <==> cats[i] == c)
    ensures |Positions(cats, KeywordMatch)| + |Positions(cats, Upregulated)|
          + |Positions(cats, Downregulated)| + |Positions(cats, NonSignificant)| == |cats|
  {
    forall i, c | 0 <= i < |cats| ensures i in Positions(cats, c) <==> cats[i] == c {
      PositionsMeaning(cats, c);
      if i in Positions(cats, c) {
        var k :| 0 <= k < |Positions(cats, c)| && Positions(cats, c)[k] == i;
      }
    }
    GroupSizesSum(cats);
  }

  lemma {:induction false} GroupSizesSum(cats: seq<Category>)
    ensures |Positions(cats, KeywordMatch)| + |Positions(cats, Upregulated)|
          + |Positions(cats, Downregulated)| + |Positions(cats, NonSignificant)| == |cats|
  {
    if cats != [] {
      GroupSizesSum(cats[..|cats| - 1]);
    }
  }

  /**
   * `p` lists the positions of category `c` in `cats`: each listed position
   * holds `c`, the list is strictly increasing, and every position holding `c`
   * is listed.
   */
  ghost predicate ListsPositionsOf(p: seq<nat>, cats: seq<Category>, c: Category) {
    && (forall k :: 0 <= k < |p| ==> p[k] < |cats| && cats[p[k]] == c)
    && (forall k, l :: 0 <= k < l < |p| ==> p[k] < p[l])
    && (forall i :: 0 <= i < |cats| && cats[i] == c ==> i in p)
  }

  /**
   * Each group holds the rows of its category, in the order they have in the
   * table: entry k of the group is the row at the k-th position of category `c`.
   */
  lemma GroupKeepsTableOrder(rows: seq<Row>, cats: seq<Category>, c: Category)
    requires |cats| == |rows|
    ensures forall r :: r in Select(rows, cats, c) ==> exists i :: 0 <= i < |rows| && rows[i] == r && cats[i] == c
    ensures forall i :: 0 <= i < |rows| && cats[i] == c ==> rows[i] in Select(rows, cats, c)
    ensures exists p ::
      && ListsPositionsOf(p, cats, c)
      && |p| == |Select(rows, cats, c)|
      && forall k :: 0 <= k < |p| ==> Select(rows, cats, c)[k] == rows[p[k]]
  {
    var p := Positions(cats, c);
    var g := Select(rows, cats, c);
    PositionsMeaning(cats, c);
    forall r | r in g ensures exists i :: 0 <= i < |rows| && rows[i] == r && cats[i] == c {
      var k :| 0 <= k < |g| && g[k] == r;
      assert rows[p[k]] == r;
    }
    forall i | 0 <= i < |rows| && cats[i] == c ensures rows[i] in g {
      var k :| 0 <= k < |p| && p[k] == i;
      assert g[k] == rows[i];
    }
    assert ListsPositionsOf(p, cats, c);
  }

  // ---------------------------------------------------------------------------
  // Figure

  /** `mode='markers'` or `mode='markers+text'` */
  datatype Mode = Markers | MarkersText

  /** One `go.Scatter` trace: points, marker size and colour, per-point text and legend name. */
  datatype Trace = Scatter(x: seq<real>, y: seq<real>, mode: Mode, markerSize: nat, color: string,
                           text: seq<string>, name: string)

  datatype Layout =
    | DefaultLayout
    | Layout(paperBackground: string, plotBackground: string, title: string, xaxisTitle: string,
             yaxisTitle: string, titleFontSize: nat, width: int, height: int, legendTitle: string)

  /** A plotly figure that the script grows with `add_trace` and finishes with `update_layout`. */
  class Figure {
    var traces: seq<Trace>
    var layout: Layout

    /** `go.Figure()` */
    constructor ()
      ensures traces == [] && layout == DefaultLayout
    {
      traces := [];
      layout := DefaultLayout;
    }

    method AddTrace(t: Trace)
      modifies this
      ensures traces == old(traces) + [t] && layout == old(layout)
    {
      traces := traces + [t];
    }

    method UpdateLayout(l: Layout)
      modifies this
      ensures layout == l && traces == old(traces)
    {
      layout := l;
    }
  }

  /** The colour palette of the four categories. */
  function Palette(c: Category): string {
    match c
    case KeywordMatch => "#32CD32"
    case Upregulated => "#FF6347"
    case Downregulated => "#1E90FF"
    case NonSignificant => "#A9A9A9"
  }

  /** The hover text of a point: its pathway name, unchanged, wrapped in a coloured span. */
  function HoverText(color: string, name: string): string {
    "<span style=\"color:" + color + ";\">" + name + "</span>"
  }

  function HoverTexts(group: seq<Row>, color: string): seq<string> {
    seq(|group|, k requires 0 <= k < |group| => HoverText(color, group[k].name))
  }

  function Scores(group: seq<Row>): seq<real> {
    seq(|group|, k requires 0 <= k < |group| => group[k].score)
  }

  function NegLog10Ps(group: seq<Row>): seq<real> {
    seq(|group|, k requires 0 <= k < |group| => group[k].negLog10P)
  }

  /** `[str(i+1) for i in range(n)]` */
  function OrdinalLabels(n: nat): seq<string> {
    seq(n, i requires 0 <= i < n => NatToString(i + 1))
  }

  /** The legend name of the keyword layer: `', '.join(keywords)` over the raw list. */
  function KeywordLegend(keywords: seq<string>): string {
    Join(", ", keywords)
  }

  /** The trace of one of the three significance categories. */
  function CategoryTrace(group: seq<Row>, c: Category, legend: string): Trace {
    Scatter(Scores(group), NegLog10Ps(group), Markers, 8, Palette(c), HoverTexts(group, Palette(c)), legend)
  }

  /** The keyword-match trace: hover names when interactive, numbers "1".."n" on the plot otherwise. */
  function KeywordTrace(group: seq<Row>, keywords: seq<string>, interactive: bool): Trace {
    if interactive then
      Scatter(Scores(group), NegLog10Ps(group), Markers, 15, Palette(KeywordMatch),
              HoverTexts(group, Palette(KeywordMatch)), KeywordLegend(keywords))
    else
      Scatter(Scores(group), NegLog10Ps(group), MarkersText, 15, Palette(KeywordMatch),
              OrdinalLabels(|group|), KeywordLegend(keywords))
  }

  /** The order in which update_plot adds its four traces. */
  function TraceCategory(t: nat): Category
    requires t < 4
  {
    [NonSignificant, Upregulated, Downregulated, KeywordMatch][t]
  }

  /** The four traces update_plot adds, in order, for a categorized table. */
  function VolcanoTraces(rows: seq<Row>, cats: seq<Category>, keywords: seq<string>, interactive: bool): seq<Trace>
    requires |cats| == |rows|
  {
    [ CategoryTrace(Select(rows, cats, NonSignificant), NonSignificant, "Non-Significant"),
      CategoryTrace(Select(rows, cats, Upregulated), Upregulated, "Upregulated"),
      CategoryTrace(Select(rows, cats, Downregulated), Downregulated, "Downregulated"),
      KeywordTrace(Select(rows, cats, KeywordMatch), keywords, interactive) ]
  }

  function VolcanoLayout(width: int, height: int): Layout {
    Layout("rgba(0,0,0,0)", "rgba(255,255,255,1)", "Interactive Volcano Plot with Keyword Search",
           "GSVA Score", "-log10(adj.P.Val)", 18, width, height, "Pathway Categories")
  }

  /** `update_plot(keywords, logic, width, height, interactive)` */
  method UpdatePlot(table: Table, keywords: seq<string>, logic: string, width: int, height: int, interactive: bool)
    returns (fig: Figure)
    modifies table
    ensures fresh(fig)
    ensures table.category == Categorize(table.rows, keywords, logic)
    ensures |table.category| == |table.rows|
    ensures forall i :: 0 <= i < |table.rows| ==> table.category[i] == GetCategory(table.rows[i], keywords, logic)
    ensures fig.traces == VolcanoTraces(table.rows, table.category, keywords, interactive)
    ensures fig.layout == VolcanoLayout(width, height)
  {
    table.ApplyCategories(keywords, logic);
    var rows, cats := table.rows, table.category;
    fig := new Figure();

    var nonSignificant := Select(rows, cats, NonSignificant);
    fig.AddTrace(CategoryTrace(nonSignificant, NonSignificant, "Non-Significant"));

    var upregulated := Select(rows, cats, Upregulated);
    fig.AddTrace(CategoryTrace(upregulated, Upregulated, "Upregulated"));

    var downregulated := Select(rows, cats, Downregulated);
    fig.AddTrace(CategoryTrace(downregulated, Downregulated, "Downregulated"));

    var keywordRows := Select(rows, cats, KeywordMatch);
    if interactive {
      fig.AddTrace(KeywordTrace(keywordRows, keywords, true));
    } else {
      fig.AddTrace(KeywordTrace(keywordRows, keywords, false));
    }

    fig.UpdateLayout(VolcanoLayout(width, height));
  }

  // ---------------------------------------------------------------------------
  // Properties of the figure's data

  /** Trace t shows, in table order, the rows whose category is TraceCategory(t), at (score, -log10 p). */
  lemma TraceHoldsGroup(rows: seq<Row>, cats: seq<Category>, keywords: seq<string>, interactive: bool, t: nat)
    requires |cats| == |rows| && t < 4
    ensures var trace := VolcanoTraces(rows, cats, keywords, interactive)[t];
      var p := Positions(cats, TraceCategory(t));
      && |trace.x| == |trace.y| == |trace.text| == |p|
      && forall k :: 0 <= k < |p| ==>
           && cats[p[k]] == TraceCategory(t) && trace.x[k] == rows[p[k]].score && trace.y[k] == rows[p[k]].negLog10P
           && trace.text[k] == (if t < 3 || interactive then HoverText(Palette(TraceCategory(t)), rows[p[k]].name)
                                else NatToString(k + 1))
  {
    var trace := VolcanoTraces(rows, cats, keywords, interactive)[t];
    var c := TraceCategory(t);
    PositionsMeaning(cats, c);
    var g := Select(rows, cats, c);
    if t < 3 {
      assert trace == CategoryTrace(g, c, trace.name);
    } else {
      assert trace == KeywordTrace(g, keywords, interactive);
    }
  }

  /**
   * Every row of the table is drawn exactly once: trace t shows, in table
   * order, the rows whose category is the t-th of non-significant, up, down,
   * keyword match, and the four traces together hold as many points as the table has rows.
   */
  lemma TracesDrawEveryRowOnce(rows: seq<Row>, cats: seq<Category>, keywords: seq<string>, interactive: bool)
    requires |cats| == |rows|
    ensures var traces := VolcanoTraces(rows, cats, keywords, interactive);
      && |traces| == 4
      && |traces[0].x| + |traces[1].x| + |traces[2].x| + |traces[3].x| == |rows|
      && forall t, k :: 0 <= t < 4 && 0 <= k < |traces[t].x| ==>
           var i := Positions(cats, TraceCategory(t))[k];
           cats[i] == TraceCategory(t) && traces[t].x[k] == rows[i].score && traces[t].y[k] == rows[i].negLog10P
  {
    var traces := VolcanoTraces(rows, cats, keywords, interactive);
    GroupSizesSum(cats);
    TraceHoldsGroup(rows, cats, keywords, interactive, 0);
    TraceHoldsGroup(rows, cats, keywords, interactive, 1);
    TraceHoldsGroup(rows, cats, keywords, interactive, 2);
    TraceHoldsGroup(rows, cats, keywords, interactive, 3);
    forall t, k | 0 <= t < 4 && 0 <= k < |traces[t].x|
      ensures var i := Positions(cats, TraceCategory(t))[k];
        cats[i] == TraceCategory(t) && traces[t].x[k] == rows[i].score && traces[t].y[k] == rows[i].negLog10P
    {
      TraceHoldsGroup(rows, cats, keywords, interactive, t);
    }
  }

  /**
   * `update_plot()` with its default arguments (no keywords, logic "AND") puts
   * every row, in table order, in the keyword group and leaves the other three
   * groups empty; the keyword legend name is then empty.
   */
  lemma DefaultArgumentsMarkEveryRow(rows: seq<Row>)
    ensures var cats := Categorize(rows, [], "AND");
      && |cats| == |rows|
      && Select(rows, cats, KeywordMatch) == rows
      && Select(rows, cats, Upregulated) == []
      && Select(rows, cats, Downregulated) == []
      && Select(rows, cats, NonSignificant) == []
    ensures KeywordLegend([]) == ""
  {
    var cats := Categorize(rows, [], "AND");
    forall i | 0 <= i < |rows| ensures cats[i] == KeywordMatch {
      AndWithBlankKeywordsMatchesEveryRow(rows[i], []);
    }
    EveryRowInKeywordGroup(rows, cats);
  }

  /** A table whose rows are all keyword matches has them all in the keyword group. */
  lemma EveryRowInKeywordGroup(rows: seq<Row>, cats: seq<Category>)
    requires |cats| == |rows|
    requires forall i :: 0 <= i < |cats| ==> cats[i] == KeywordMatch
    ensures Select(rows, cats, KeywordMatch) == rows
    ensures Select(rows, cats, Upregulated) == []
    ensures Select(rows, cats, Downregulated) == []
    ensures Select(rows, cats, NonSignificant) == []
  {
    PositionsOfAbsent(cats, Upregulated);
    PositionsOfAbsent(cats, Downregulated);
    PositionsOfAbsent(cats, NonSignificant);
    var p := Positions(cats, KeywordMatch);
    PositionsOfConstant(cats, KeywordMatch, 0);
    forall k | 0 <= k < |p| ensures p[k] == k {
      PositionsOfConstant(cats, KeywordMatch, k);
    }
  }

  /** A category no entry has occupies no position. */
  lemma {:induction false} PositionsOfAbsent(cats: seq<Category>, c: Category)
    requires forall i :: 0 <= i < |cats| ==> cats[i] != c
    ensures Positions(cats, c) == []
  {
    if cats != [] {
      PositionsOfAbsent(cats[..|cats| - 1], c);
    }
  }

  /** When every entry is `c`, the positions of `c` are 0, 1, 2, ... */
  lemma {:induction false} PositionsOfConstant(cats: seq<Category>, c: Category, k: nat)
    requires forall i :: 0 <= i < |cats| ==> cats[i] == c
    ensures |Positions(cats, c)| == |cats|
    ensures k < |cats| ==> Positions(cats, c)[k] == k
  {
    if cats != [] {
      PositionsOfConstant(cats[..|cats| - 1], c, k);
    }
  }

  /** In non-interactive mode the keyword points are numbered "1".."n" in table order, each number distinct. */
  lemma OrdinalLabelsNumberFromOne(n: nat)
    ensures |OrdinalLabels(n)| == n
    ensures forall k :: 0 <= k < n ==> ParseNat(OrdinalLabels(n)[k]) == k + 1
    ensures forall k :: 0 <= k < n ==> |OrdinalLabels(n)[k]| == 1 || OrdinalLabels(n)[k][0] != '0'
    ensures forall k, l :: 0 <= k < l < n ==> OrdinalLabels(n)[k] != OrdinalLabels(n)[l]
  {
    forall k | 0 <= k < n ensures ParseNat(OrdinalLabels(n)[k]) == k + 1 {
      ParseNatToString(k + 1);
    }
  }

  /**
   * The keyword layer: marker size 15 in the keyword colour, hover names when
   * interactive, on-plot numbers otherwise, and in both modes the same legend
   * name, which shows every raw keyword verbatim.
   */
  lemma KeywordTraceShape(group: seq<Row>, keywords: seq<string>, interactive: bool)
    ensures var t := KeywordTrace(group, keywords, interactive);
      && t.markerSize == 15 && t.color == Palette(KeywordMatch)
      && t.x == Scores(group) && t.y == NegLog10Ps(group)
      && (interactive ==> t.mode == Markers && t.text == HoverTexts(group, Palette(KeywordMatch)))
      && (!interactive ==> t.mode == MarkersText && |t.text| == |group|
                           && forall k :: 0 <= k < |group| ==>
                                ParseNat(t.text[k]) == k + 1 && (|t.text[k]| == 1 || t.text[k][0] != '0'))
      && t.name == KeywordTrace(group, keywords, !interactive).name
      && forall k :: 0 <= k < |keywords| ==> IsSubstring(keywords[k], t.name)
  {
    OrdinalLabelsNumberFromOne(|group|);
    forall k | 0 <= k < |keywords| ensures IsSubstring(keywords[k], KeywordLegend(keywords)) {
      JoinContainsEveryPart(", ", keywords, k);
    }
  }

  /**
   * The legend name spelled out: all raw keywords, blank ones included, in
   * their order, keyword k after the k keywords before it and k separators
   * `", "`, one separator directly after each keyword but the last, and
   * nothing else; empty for no keywords.
   */
  lemma KeywordLegendLayout(keywords: seq<string>)
    ensures |keywords| > 0 ==> |KeywordLegend(keywords)| == TotalLength(keywords) + 2 * (|keywords| - 1)
    ensures |keywords| == 0 ==> KeywordLegend(keywords) == ""
    ensures forall k :: 0 <= k < |keywords| ==>
      OccursAt(keywords[k], KeywordLegend(keywords), TotalLength(keywords[..k]) + 2 * k)
    ensures forall k :: 0 <= k < |keywords| - 1 ==>
      OccursAt(", ", KeywordLegend(keywords), TotalLength(keywords[..k + 1]) + 2 * k)
  {
    var sep := ", ";
    assert |sep| == 2;
    JoinLength(sep, keywords);
    forall k | 0 <= k < |keywords|
      ensures OccursAt(keywords[k], KeywordLegend(keywords), TotalLength(keywords[..k]) + 2 * k)
    {
      JoinPlacesPart(sep, keywords, k);
    }
    forall k | 0 <= k < |keywords| - 1
      ensures OccursAt(sep, KeywordLegend(keywords), TotalLength(keywords[..k + 1]) + 2 * k)
    {
      JoinPlacesSeparator(sep, keywords, k);
    }
  }

  /** The hover text shows the pathway name exactly as it is in the table, not its normalised form. */
  lemma HoverTextShowsName(color: string, name: string)
    ensures OccursAt(name, HoverText(color, name), 22 + |color|)
  {
    var prefix := "<span style=\"color:" + color + ";\">";
    assert |prefix| == 22 + |color|;
    assert HoverText(color, name) == prefix + name + "</span>";
  }

  /** The four categories have four different colours. */
  lemma PaletteDistinct(c: Category, d: Category)
    requires c != d
    ensures Palette(c) != Palette(d)
  {
  }
}
