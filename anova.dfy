/**
  The "One-Way ANOVA" table of `anova.py`: one row for the 1000 Hz band and
  one for the 5000 Hz band, in that order, each from a one-way analysis of
  that band's totals by group. The analysis itself is library numerics and
  enters as a function from the group column and the band totals to its
  results.
*/
module Anova {
  import Survey
  import opened Demographics

  /** What `pg.anova(...)` reports: F, the two degrees of freedom, p and partial eta squared. */
  datatype AovStats = AovStats(f: real, dfBetween: int, dfWithin: int, p: real, np2: real)

  /** One entry of `anova_results`; the numbers are kept unformatted. */
  datatype AovRow = AovRow(freq: string, f: real, df1: int, df2: int, p: real, rSquared: real)

  /** The two band tags this script sums, in the order it analyses them. */
  const AnovaTags: seq<string> := ["(1000Hz)", "(5000Hz)"]

  /** The two bands' printed names, in the same order. */
  const AnovaBands: seq<string> := ["1000Hz", "5000Hz"]

  /** The bands analysed are the last two of the three, in band order. */
  lemma AnovaBandsAreUpperTwo()
    ensures AnovaTags == BandTags[1..] && AnovaBands == BandNames[1..]
    ensures forall b :: 0 <= b < 2 ==> AnovaTags[b] in BandTags
  {
  }

  function AovRowOf(freq: string, s: AovStats): AovRow
  {
    AovRow(freq, s.f, s.dfBetween, s.dfWithin, s.p, s.np2)
  }

  /**
    The loop over the two bands: exactly two rows, for 1000 Hz and then
    5000 Hz, each holding the analysis of that band's totals by group.
  */
  method AnovaRows(t: Prepared, anova: (seq<string>, seq<int>) -> AovStats) returns (rows: seq<AovRow>)
    requires Shaped(t, 2)
    ensures |rows| == 2 && rows[0].freq == "1000Hz" && rows[1].freq == "5000Hz"
    ensures forall b :: 0 <= b < 2 ==> rows[b] == AovRowOf(AnovaBands[b], anova(t.groups, t.totals[b]))
  {
    rows := [];
    var bands := [(0, "1000Hz"), (1, "5000Hz")];
    for i := 0 to 2
      invariant |rows| == i
      invariant forall b :: 0 <= b < i ==> rows[b] == AovRowOf(AnovaBands[b], anova(t.groups, t.totals[b]))
    {
      var col, name := bands[i].0, bands[i].1;
      var s := anova(t.groups, t.totals[col]);
      rows := rows + [AovRow(name, s.f, s.dfBetween, s.dfWithin, s.p, s.np2)];
    }
  }

  /**
    What the analysis is given: when the table can be prepared, the
    `total_1000` and `total_5000` of every respondent are the sums of the
    columns tagged "(1000Hz)" and "(5000Hz)".
  */
  lemma AnovaInputs(raw: seq<string>, rows: seq<Row>)
    requires Prepare(raw, rows, AnovaTags).Some?
    ensures Shaped(Prepare(raw, rows, AnovaTags).value, 2)
    ensures forall i :: 0 <= i < |rows| ==>
              RowTotal(rows[i], Survey.Tagged(CleanColumns(raw), "(1000Hz)")).Some?
              && RowTotal(rows[i], Survey.Tagged(CleanColumns(raw), "(5000Hz)")).Some?
              && Prepare(raw, rows, AnovaTags).value.totals[0][i] == RowTotal(rows[i], Survey.Tagged(CleanColumns(raw), "(1000Hz)")).value
              && Prepare(raw, rows, AnovaTags).value.totals[1][i] == RowTotal(rows[i], Survey.Tagged(CleanColumns(raw), "(5000Hz)")).value
  {
    AnovaBandsAreUpperTwo();
    PreparedSums(raw, rows, AnovaTags);
    var t := Prepare(raw, rows, AnovaTags).value;
    assert AnovaTags[0] == "(1000Hz)" && AnovaTags[1] == "(5000Hz)";
    forall i | 0 <= i < |rows|
      ensures RowTotal(rows[i], Survey.Tagged(CleanColumns(raw), "(1000Hz)")).Some?
              && RowTotal(rows[i], Survey.Tagged(CleanColumns(raw), "(5000Hz)")).Some?
              && t.totals[0][i] == RowTotal(rows[i], Survey.Tagged(CleanColumns(raw), "(1000Hz)")).value
              && t.totals[1][i] == RowTotal(rows[i], Survey.Tagged(CleanColumns(raw), "(5000Hz)")).value
    {
      assert RowTotal(rows[i], Survey.Tagged(CleanColumns(raw), AnovaTags[0])).Some?;
      assert RowTotal(rows[i], Survey.Tagged(CleanColumns(raw), AnovaTags[1])).Some?;
    }
  }
}
