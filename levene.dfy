/**
  The "Levene's Test of Equality of Variances" table of `levene.py`: one row
  per band, in band order, comparing the four groups' band totals. The test
  itself is library numerics and enters as a function from the four groups'
  data to the statistic and its p-value.
*/
module Levene {
  import opened Demographics

  /** The significance level of the verdict and of the highlight. */
  const Alpha: real := 0.05

  /** `'Equal' if lev_p > 0.05 else 'Unequal'`. */
  function Verdict(p: real): (v: string)
    ensures v == "Equal" || v == "Unequal"
    ensures v == "Equal" <==> p > Alpha
  {
    if p > Alpha then "Equal" else "Unequal"
  }

  /**
    The follow-up analysis the table recommends: plain ANOVA when the
    variances pass as equal, Welch's ANOVA otherwise.
  */
  function NextStep(p: real): (s: string)
    ensures s == "ANOVA / Kruskal-Wallis" || s == "Welch's ANOVA / Kruskal-Wallis"
    ensures s == "ANOVA / Kruskal-Wallis" <==> p > Alpha
  {
    if Verdict(p) == "Equal" then "ANOVA / Kruskal-Wallis" else "Welch's ANOVA / Kruskal-Wallis"
  }

  /** One entry of `rows`; the statistic and p-value are kept as numbers. */
  datatype LevRow = LevRow(freq: string, f: real, df1: int, df2: int, p: real, result: string, nextStep: string)

  /** `p_val < 0.05`: the p cell is shaded red and bold. */
  predicate Highlighted(r: LevRow)
  {
    r.p < Alpha
  }

  /** The row of one band, given the number of respondents and the four groups' data. */
  function LevRowOf(freq: string, respondents: nat, data: seq<seq<int>>, levene: seq<seq<int>> -> (real, real)): LevRow
  {
    var (stat, p) := levene(data);
    LevRow(freq, stat, 3, respondents - 4, p, Verdict(p), NextStep(p))
  }

  /**
    The loop over `freq_cols`: exactly one row per band, in band order, each
    testing that band's totals split by group in `group_order`, with
    `df1 = 3` and `df2` the number of respondents less four.
  */
  method LeveneRows(t: Prepared, levene: seq<seq<int>> -> (real, real)) returns (rows: seq<LevRow>)
    requires Shaped(t, 3)
    ensures |rows| == 3
    ensures forall b :: 0 <= b < 3 ==>
              rows[b] == LevRowOf(BandNames[b], |t.groups|, GroupsData(t.groups, t.totals[b]), levene)
  {
    rows := [];
    for b := 0 to 3
      invariant |rows| == b
      invariant forall c :: 0 <= c < b ==>
                  rows[c] == LevRowOf(BandNames[c], |t.groups|, GroupsData(t.groups, t.totals[c]), levene)
    {
      var data := GroupsData(t.groups, t.totals[b]);
      var (stat, p) := levene(data);
      rows := rows + [LevRow(BandNames[b], stat, 3, |t.groups| - 4, p, Verdict(p), NextStep(p))];
    }
  }

  /**
    The verdict and the next step agree: "Equal" with plain ANOVA exactly when
    p exceeds .05, "Unequal" with Welch's ANOVA otherwise.
  */
  lemma VerdictRule(p: real)
    ensures Verdict(p) == "Equal" <==> p > Alpha
    ensures Verdict(p) == "Equal" <==> NextStep(p) == "ANOVA / Kruskal-Wallis"
    ensures Verdict(p) == "Unequal" <==> NextStep(p) == "Welch's ANOVA / Kruskal-Wallis"
  {
  }

  /**
    A highlighted p-value always comes with "Unequal", but not conversely:
    at exactly p = .05 the verdict is "Unequal" and the cell is not shaded.
  */
  lemma HighlightMeansUnequal(freq: string, respondents: nat, data: seq<seq<int>>,
                              levene: seq<seq<int>> -> (real, real))
    ensures var r := LevRowOf(freq, respondents, data, levene);
      (Highlighted(r) ==> r.result == "Unequal")
      && (r.p == Alpha ==> r.result == "Unequal" && !Highlighted(r))
  {
  }

  /**
    The degrees of freedom are those of Levene's test over the four groups:
    `df1` is one less than the number of groups and `df2` is the number of
    observations in them less the number of groups, since every respondent
    falls into exactly one group.
  */
  lemma DegreesOfFreedom(t: Prepared, b: nat, levene: seq<seq<int>> -> (real, real))
    requires Shaped(t, 3) && b < 3
    ensures var data := GroupsData(t.groups, t.totals[b]);
      var r := LevRowOf(BandNames[b], |t.groups|, data, levene);
      r.df1 == |data| - 1
      && r.df2 == |data[0]| + |data[1]| + |data[2]| + |data[3]| - |data|
  {
    GroupsDataCover(t.groups, t.totals[b]);
  }
}
