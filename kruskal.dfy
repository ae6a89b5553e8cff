/**
  The "Kruskal-Wallis Test" table of `kruskal-wallis.py`: the four groups'
  200 Hz totals compared by a Kruskal-Wallis test, reported with its degrees
  of freedom and the effect size `max((H - k + 1) / (n - k), 0)`. The test
  itself is library numerics and enters as a function from the groups' data
  to H and its p-value.
*/
module Kruskal {
  import opened Wrappers
  import Survey
  import opened Demographics

  /** The number of groups compared. */
  const Groups: int := 4

  /** The only band tag this script sums. */
  const KruskalTags: seq<string> := ["(200Hz)"]

  /** Python's `max(x, 0)`: `x` unless 0 is larger. */
  function AtLeastZero(x: real): (r: real)
    ensures r >= 0.0 && r >= x
    ensures r == x || r == 0.0
  {
    if 0.0 > x then 0.0 else x
  }

  /**
    `eta2` for statistic `h` over `n` respondents; `None` when `n == k`, where
    the division yields infinity or NaN instead of a number.
  */
  function EffectSize(h: real, n: int): (r: Option<real>)
    ensures r.None? <==> n == Groups
    ensures r.Some? ==> r.value >= 0.0
  {
    if n == Groups then None else Some(AtLeastZero((h - Groups as real + 1.0) / (n - Groups) as real))
  }

  /**
    With more respondents than groups the effect size is `(H - 3) / (n - 4)`
    when H is at least 3 and is clamped to 0 otherwise.
  */
  lemma EffectSizeClamp(h: real, n: int)
    requires n > Groups
    ensures h >= 3.0 ==> EffectSize(h, n) == Some((h - 3.0) / (n - 4) as real)
    ensures h < 3.0 ==> EffectSize(h, n) == Some(0.0)
    ensures EffectSize(h, n).value > 0.0 <==> h > 3.0
  {
    var d := (n - 4) as real;
    assert d > 0.0;
    if h >= 3.0 {
      assert (h - 3.0) / d >= 0.0;
    } else {
      assert (h - 3.0) / d < 0.0;
    }
  }

  /** One row of the table: band, H, its df, the effect size and p. */
  datatype KwRow = KwRow(freq: string, h: real, df: int, eta2: Option<real>, p: real)

  /**
    The 200 Hz test: the groups' data in `group_order` go to the test, `df`
    is one less than the number of groups, and the effect size uses the
    number of respondents.
  */
  function KruskalRow(t: Prepared, kruskal: seq<seq<int>> -> (real, real)): (r: KwRow)
    requires Shaped(t, 1)
    ensures r.freq == BandNames[0] && r.df == Groups - 1 == 3
    ensures (r.h, r.p) == kruskal(GroupsData(t.groups, t.totals[0]))
    ensures r.eta2 == EffectSize(r.h, |t.groups|)
  {
    var (h, p) := kruskal(GroupsData(t.groups, t.totals[0]));
    KwRow("200Hz", h, Groups - 1, EffectSize(h, |t.groups|), p)
  }

  /**
    The effect size of the table is a number exactly when there are not
    four respondents; it is then never negative and it divides by the
    number of observations across the four groups less four.
  */
  lemma KruskalEffect(t: Prepared, kruskal: seq<seq<int>> -> (real, real))
    requires Shaped(t, 1)
    ensures var data := GroupsData(t.groups, t.totals[0]);
      var r := KruskalRow(t, kruskal);
      (r.eta2.Some? <==> |data[0]| + |data[1]| + |data[2]| + |data[3]| != Groups)
      && (r.eta2.Some? ==> r.eta2.value >= 0.0)
  {
    GroupsDataCover(t.groups, t.totals[0]);
  }

  /** What the test is given: each respondent's `total_200` is the sum of the "(200Hz)" columns. */
  lemma KruskalInputs(raw: seq<string>, rows: seq<Row>)
    requires Prepare(raw, rows, KruskalTags).Some?
    ensures Shaped(Prepare(raw, rows, KruskalTags).value, 1)
    ensures forall i :: 0 <= i < |rows| ==>
              RowTotal(rows[i], Survey.Tagged(CleanColumns(raw), "(200Hz)")).Some?
              && Prepare(raw, rows, KruskalTags).value.totals[0][i] == RowTotal(rows[i], Survey.Tagged(CleanColumns(raw), "(200Hz)")).value
  {
    PreparedSums(raw, rows, KruskalTags);
    assert KruskalTags[0] == "(200Hz)";
  }
}
