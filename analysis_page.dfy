/**
 * The data handling of Finance/src/pages/AnalysisPage.tsx: the chart and
 * insight-request projections of the analysis groups, the cleaning of the
 * generated insight text into points, and the split of a numbered point
 * into its number and text.
 */
module AnalysisPage {
  import opened Options
  import opened Strings
  import opened Queries

  // ---------------------------------------------------------------------
  // projections of the analysis data

  /** `data.map(item => item.totalAmount)`. */
  function Amounts(data: seq<Group>): (amounts: seq<int>)
    ensures |amounts| == |data| && forall i :: 0 <= i < |data| ==> amounts[i] == data[i].totalAmount
    decreases |data|
  {
    if data == [] then [] else [data[0].totalAmount] + Amounts(data[1..])
  }

  /** The labels and values of a chart, or the `{categories, amounts}` sent for insights. */
  datatype Projection = Projection(labels: seq<string>, values: seq<int>)

  /** The projection every chart (bar, line and pie) and the insight request use. */
  function Project(data: seq<Group>): Projection {
    Projection(Ids(data), Amounts(data))
  }

  /** Labels and values line up with the groups, and only the counts are lost. */
  lemma ProjectionKeepsGroups(data: seq<Group>)
    ensures |Project(data).labels| == |Project(data).values| == |data|
    ensures forall i :: 0 <= i < |data| ==>
      Group(Project(data).labels[i], Project(data).values[i], data[i].count) == data[i]
  {
  }

  /** The server's groups have distinct ids, so a chart never shows a label twice. */
  lemma ProjectedLabelsDistinct(data: seq<Group>)
    requires DistinctIds(data)
    ensures forall i, j :: 0 <= i < j < |data| ==> Project(data).labels[i] != Project(data).labels[j]
  {
  }

  // ---------------------------------------------------------------------
  // insight cleaning

  /** The phrases whose lines are dropped. */
  const Boilerplate: seq<string> := ["Let me know if you would like", "Here's an analysis", "Based on the expense data"]

  /** What the page shows when the insight request fails. */
  const InsightsFallback := ["Unable to generate insights at this time."]

  /** `line` contains none of `phrases`. */
  predicate FreeOf(line: string, phrases: seq<string>) {
    forall p :: p in phrases ==> !Contains(line, p)
  }

  predicate FreeOfBoilerplate(line: string) {
    FreeOf(line, Boilerplate)
  }

  /** The filter: the line is not blank and carries none of the three phrases. */
  predicate Keep(line: string) {
    Trim(line) != [] && FreeOfBoilerplate(line)
  }

  /** `lines.filter(keep)`: the lines `keep` accepts, in order. */
  function Filter(lines: seq<string>, keep: string -> bool): (r: seq<string>)
    ensures |r| <= |lines|
    decreases |lines|
  {
    if lines == [] then []
    else Filter(lines[..|lines| - 1], keep) + (if keep(lines[|lines| - 1]) then [lines[|lines| - 1]] else [])
  }

  /** The filter keeps exactly the lines `keep` accepts. */
  lemma {:induction false} FilterMembers(lines: seq<string>, keep: string -> bool)
    ensures forall x :: x in Filter(lines, keep) <==> x in lines && keep(x)
    decreases |lines|
  {
    if lines != [] {
      var init := lines[..|lines| - 1];
      assert lines == init + [lines[|lines| - 1]];
      FilterMembers(init, keep);
    }
  }

  /** `lines.map(f)`. */
  function MapLines(lines: seq<string>, f: string -> string): (r: seq<string>)
    ensures |r| == |lines| && forall i :: 0 <= i < |lines| ==> r[i] == f(lines[i])
    decreases |lines|
  {
    if lines == [] then [] else [f(lines[0])] + MapLines(lines[1..], f)
  }

  /** `.map(line => line.trim())`. */
  function TrimAll(lines: seq<string>): (r: seq<string>)
    ensures |r| == |lines| && forall i :: 0 <= i < |lines| ==> r[i] == Trim(lines[i])
  {
    MapLines(lines, Trim)
  }

  /** A piece of a line free of some phrases is free of them too. */
  lemma FreeOfInfix(line: string, i: nat, piece: string, phrases: seq<string>)
    requires i + |piece| <= |line| && piece == line[i..i + |piece|] && FreeOf(line, phrases)
    ensures FreeOf(piece, phrases)
  {
    forall p | p in phrases ensures !Contains(piece, p) {
      if Contains(piece, p) { ContainsInfix(line, i, i + |piece|, p); }
    }
  }

  /** Trimming keeps a line free of the phrases. */
  lemma TrimmedFreeOf(line: string, phrases: seq<string>)
    requires FreeOf(line, phrases)
    ensures FreeOf(Trim(line), phrases)
  {
    TrimSlice(line);
    FreeOfInfix(line, |line| - |TrimStart(line)|, Trim(line), phrases);
  }

  /** A kept line's trim has everything the page wants of a point. */
  lemma KeptLineTrimmed(line: string)
    requires Keep(line)
    ensures Trim(line) != [] && Trim(Trim(line)) == Trim(line) && FreeOfBoilerplate(Trim(line))
  {
    TrimmedFreeOf(line, Boilerplate);
    TrimIdempotent(line);
  }

  /**
   * The cleaned insight points of the generated text: every point is a
   * non-empty, trimmed line without the three phrases, and there are no
   * more points than lines.
   */
  function CleanInsights(raw: string): (points: seq<string>)
    ensures |points| <= |Split(raw, '\n')|
    ensures forall i :: 0 <= i < |points| ==>
      points[i] != [] && Trim(points[i]) == points[i] && FreeOfBoilerplate(points[i])
  {
    var kept := Filter(Split(raw, '\n'), Keep);
    FilterMembers(Split(raw, '\n'), Keep);
    forall i | 0 <= i < |kept| ensures Trim(kept[i]) != [] && Trim(Trim(kept[i])) == Trim(kept[i])
                                       && FreeOfBoilerplate(Trim(kept[i])) {
      assert kept[i] in kept;
      KeptLineTrimmed(kept[i]);
    }
    TrimAll(kept)
  }

  /** The positions of the lines `keep` accepts, in increasing order. */
  function Positions(lines: seq<string>, keep: string -> bool): (idx: seq<nat>)
    ensures forall k :: 0 <= k < |idx| ==> idx[k] < |lines| && keep(lines[idx[k]])
    ensures forall k, l :: 0 <= k < l < |idx| ==> idx[k] < idx[l]
    ensures forall j :: 0 <= j < |lines| && keep(lines[j]) ==> j in idx
    decreases |lines|
  {
    if lines == [] then []
    else
      var init := lines[..|lines| - 1];
      var prev := Positions(init, keep);
      assert forall j :: 0 <= j < |init| ==> lines[j] == init[j];
      if keep(lines[|lines| - 1]) then
        var idx := prev + [|lines| - 1];
        assert forall k :: 0 <= k < |prev| ==> idx[k] == prev[k];
        idx
      else prev
  }

  /** The filter keeps the accepted lines in their original order: element `k` is line `Positions(lines, keep)[k]`. */
  lemma {:induction false} FilterIsPositions(lines: seq<string>, keep: string -> bool)
    ensures |Filter(lines, keep)| == |Positions(lines, keep)|
    ensures forall k :: 0 <= k < |Positions(lines, keep)| ==>
      Filter(lines, keep)[k] == lines[Positions(lines, keep)[k]]
    decreases |lines|
  {
    if lines != [] {
      var init := lines[..|lines| - 1];
      var last := lines[|lines| - 1];
      FilterIsPositions(init, keep);
      var prev := Positions(init, keep);
      var f := Filter(init, keep);
      assert forall k :: 0 <= k < |prev| ==> lines[prev[k]] == init[prev[k]];
      if keep(last) {
        assert Filter(lines, keep) == f + [last];
        assert Positions(lines, keep) == prev + [|lines| - 1];
      } else {
        assert Filter(lines, keep) == f;
        assert Positions(lines, keep) == prev;
      }
    }
  }

  /**
   * The cleaned points are exactly the trimmed lines that are not blank and
   * free of the phrases, in their original order.
   */
  lemma CleanedAreKeptLinesTrimmed(raw: string)
    ensures var lines := Split(raw, '\n');
      && |CleanInsights(raw)| == |Positions(lines, Keep)|
      && forall k :: 0 <= k < |Positions(lines, Keep)| ==>
           CleanInsights(raw)[k] == Trim(lines[Positions(lines, Keep)[k]])
  {
    FilterIsPositions(Split(raw, '\n'), Keep);
  }

  /** `setInsights(...)`: the cleaned points, or the fallback when the request fails. */
  function Insights(response: Option<string>): (points: seq<string>)
    ensures response.None? ==> points == InsightsFallback
    ensures response.Some? ==> forall i :: 0 <= i < |points| ==>
      points[i] != [] && Trim(points[i]) == points[i] && FreeOfBoilerplate(points[i])
  {
    match response
    case None => InsightsFallback
    case Some(raw) => CleanInsights(raw)
  }

  // ---------------------------------------------------------------------
  // numbered points

  /** `/^\d+\./.test(insight)`. */
  predicate IsNumbered(insight: string) {
    var n := LeadingDigits(insight);
    1 <= n < |insight| && insight[n] == '.'
  }

  /** The regular expression's meaning: some non-empty run of digits at the start is followed by '.'. */
  lemma IsNumberedIff(insight: string)
    ensures IsNumbered(insight) <==>
      exists k :: 1 <= k < |insight| && AllDigits(insight[..k]) && insight[k] == '.'
  {
    var n := LeadingDigits(insight);
    if IsNumbered(insight) {
      assert 1 <= n < |insight| && AllDigits(insight[..n]) && insight[n] == '.';
    }
    if exists k :: 1 <= k < |insight| && AllDigits(insight[..k]) && insight[k] == '.' {
      var k :| 1 <= k < |insight| && AllDigits(insight[..k]) && insight[k] == '.';
      LeadingDigitsIsRun(insight, k);
    }
  }

  /** How a point is rendered: with its number and the text after it, or as it is. */
  datatype PointView = Numbered(number: string, text: string) | Plain(text: string)

  /** `const [number, ...rest] = insight.split('.')` and `rest.join('.')`. */
  function View(insight: string): (v: PointView)
    ensures v.Numbered? <==> IsNumbered(insight)
    ensures v.Plain? ==> v.text == insight
    ensures v.Numbered? ==> v.number != [] && AllDigits(v.number) && v.number + "." + v.text == insight
  {
    if IsNumbered(insight) then
      var parts := Split(insight, '.');
      NumberedSplit(insight);
      Numbered(parts[0], Join(parts[1..], '.'))
    else Plain(insight)
  }

  /** For a numbered point the first piece is its digits and the rest joins back to what follows the '.'. */
  lemma NumberedSplit(insight: string)
    requires IsNumbered(insight)
    ensures var n := LeadingDigits(insight);
      && Split(insight, '.')[0] == insight[..n]
      && Join(Split(insight, '.')[1..], '.') == insight[n + 1..]
  {
    var n := LeadingDigits(insight);
    var digits := insight[..n];
    var tail := insight[n + 1..];
    assert insight == digits + ['.'] + tail;
    assert '.' !in digits by {
      forall k | 0 <= k < |digits| ensures digits[k] != '.' {
        assert IsDigit(digits[k]);
      }
    }
    SplitAtSeparator(digits, '.', tail);
    SplitWithoutSeparator(digits, '.');
    assert Split(insight, '.')[1..] == Split(tail, '.');
    JoinSplit(tail, '.');
  }
}
