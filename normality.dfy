/**
  The "Tests of Normality" table of `shapiro-wilk.py`: for every band and
  every group, in that order, one row whenever the group has at least three
  respondents, holding the Kolmogorov-Smirnov and Shapiro-Wilk results of the
  group's band totals; then the drawing loop's per-row decisions (the band
  name only on the first row of a band, the Shapiro-Wilk cell highlighted
  below .05). The two tests are library numerics and enter as a function.
*/
module Normality {
  import opened Wrappers
  import opened Records
  import opened Strings
  import opened Demographics

  /** What `stats.kstest(...)` and `stats.shapiro(...)` report for one sample. */
  datatype TestResult = TestResult(ksStat: real, ksP: real, swStat: real, swP: real)

  /**
    One entry of `rows`. The statistics are kept as numbers; `ksStar` is
    whether the KS significance is printed with a trailing `*`.
  */
  datatype NormRow = NormRow(freq: string, group: string, n: nat,
                             ksStat: real, ksDf: nat, ksP: real, ksStar: bool,
                             swStat: real, swDf: nat, swP: real)

  /** Smallest group a row is computed for. */
  const MinSample: nat := 3

  /** The significance level of both marking rules. */
  const Alpha: real := 0.05

  /** `group.replace(' | ', '\n')`: the label as the table prints it. */
  function Display(g: string): string
  {
    ReplaceAll(g, " | ", "\n")
  }

  /** A label as printed: the two halves on two lines. */
  function DisplayName(tonal: bool, musician: bool): string
  {
    (if tonal then "Tonal" else "Non-Tonal") + "\n" + (if musician then "Musician" else "Non-Musician")
  }

  /** The four printed labels, in `group_order`. */
  const Displays: seq<string> :=
    [DisplayName(true, true), DisplayName(true, false), DisplayName(false, true), DisplayName(false, false)]

  /** Replacing the one separator between two space-free halves puts them on two lines. */
  lemma DisplaySplit(a: string, b: string)
    requires ' ' !in a && ' ' !in b
    ensures Display(a + " | " + b) == a + "\n" + b
  {
    assert a + " | " + b == a + (" | " + b);
    ReplaceAfterAbsent(a, " | " + b, " | ", "\n");
    ReplaceAtStart(b, " | ", "\n");
    ReplaceAbsent(b, " | ", "\n");
  }

  /** Printing a label replaces its one separator by a line break. */
  lemma DisplayLabel(tonal: bool, musician: bool)
    ensures Display(GroupLabel(tonal, musician)) == DisplayName(tonal, musician)
  {
    var a := if tonal then "Tonal" else "Non-Tonal";
    var b := if musician then "Musician" else "Non-Musician";
    assert ' ' !in a;
    assert ' ' !in b;
    DisplaySplit(a, b);
  }

  lemma DisplayOf(g: string, tonal: bool, musician: bool)
    requires g == GroupLabel(tonal, musician)
    ensures Display(g) == DisplayName(tonal, musician)
  {
    DisplayLabel(tonal, musician);
  }

  /** Each entry of `group_order` prints as the corresponding entry of `Displays`. */
  lemma DisplayAt(g: nat)
    requires g < 4
    ensures Display(GroupOrder[g]) == Displays[g]
  {
    var tonal, musician := g < 2, g % 2 == 0;
    GroupLabelInOrder(tonal, musician);
    DisplayOf(GroupOrder[g], tonal, musician);
  }

  lemma DisplaysDistinct()
    ensures Distinct(Displays)
  {
    assert |Displays[0]| == 14 && |Displays[1]| == 18 && |Displays[2]| == 18 && |Displays[3]| == 22;
    assert Displays[1][0] == 'T' && Displays[2][0] == 'N';
  }

  /** The entry `rows` receives for one band and group: both tests on the group's data. */
  function RowFor(freq: string, group: string, data: seq<int>, test: seq<int> -> TestResult): (r: NormRow)
    ensures r.freq == freq && r.group == Display(group)
    ensures r.n == |data| && r.ksDf == r.n && r.swDf == r.n
    ensures TestResult(r.ksStat, r.ksP, r.swStat, r.swP) == test(data)
    ensures r.ksStar <==> r.ksP > Alpha
  {
    var t := test(data);
    NormRow(freq, Display(group), |data|, t.ksStat, |data|, t.ksP, t.ksP > Alpha, t.swStat, |data|, t.swP)
  }

  /** The row of one band and group, or none when the group is too small. */
  function NormRowOf(freq: string, group: string, data: seq<int>, test: seq<int> -> TestResult): Option<NormRow>
  {
    if |data| >= MinSample then Some(RowFor(freq, group, data, test)) else None
  }

  /** Group `g`'s contribution to its band's rows: its row, or nothing. */
  function Entry(freq: string, groups: seq<string>, values: seq<int>, g: nat, test: seq<int> -> TestResult): seq<NormRow>
    requires |groups| == |values| && g < 4
  {
    var o := NormRowOf(freq, GroupOrder[g], Select(groups, values, GroupOrder[g]), test);
    if o.Some? then [o.value] else []
  }

  /** The rows of one band for the first `k` groups of `group_order`. */
  function GroupRows(freq: string, groups: seq<string>, values: seq<int>, k: nat,
                     test: seq<int> -> TestResult): seq<NormRow>
    requires |groups| == |values| && k <= 4
  {
    if k == 0 then []
    else
      GroupRows(freq, groups, values, k - 1, test) + Entry(freq, groups, values, k - 1, test)
  }

  /** One more group adds its row when it has at least three respondents, and nothing otherwise. */
  lemma GroupRowsStep(freq: string, groups: seq<string>, values: seq<int>, g: nat, test: seq<int> -> TestResult)
    requires |groups| == |values| && g < 4
    ensures var data := Select(groups, values, GroupOrder[g]);
      GroupRows(freq, groups, values, g + 1, test)
      == GroupRows(freq, groups, values, g, test) + (if |data| >= MinSample then [RowFor(freq, GroupOrder[g], data, test)] else [])
  {
  }

  /** The rows of the first `k` bands. */
  function BandRows(p: Prepared, k: nat, test: seq<int> -> TestResult): seq<NormRow>
    requires Shaped(p, 3) && k <= 3
  {
    if k == 0 then []
    else BandRows(p, k - 1, test) + GroupRows(BandNames[k - 1], p.groups, p.totals[k - 1], 4, test)
  }

  /** The whole table. */
  function NormalityTable(p: Prepared, test: seq<int> -> TestResult): seq<NormRow>
    requires Shaped(p, 3)
  {
    BandRows(p, 3, test)
  }

  /** The outer loop over `freq_cols`: the rows of each band in turn. */
  method NormalityRows(p: Prepared, test: seq<int> -> TestResult) returns (rows: seq<NormRow>)
    requires Shaped(p, 3)
    ensures rows == NormalityTable(p, test)
  {
    rows := [];
    for b := 0 to 3
      invariant rows == BandRows(p, b, test)
    {
      var band := BandLoop(BandNames[b], p.groups, p.totals[b], test);
      rows := rows + band;
    }
  }

  /** The inner loop over `group_order`: the rows one band adds. */
  method BandLoop(freq: string, groups: seq<string>, values: seq<int>, test: seq<int> -> TestResult)
    returns (rows: seq<NormRow>)
    requires |groups| == |values|
    ensures rows == GroupRows(freq, groups, values, 4, test)
  {
    rows := [];
    for g := 0 to 4
      invariant rows == GroupRows(freq, groups, values, g, test)
    {
      var group := GroupOrder[g];
      var data := Select(groups, values, group);
      GroupRowsStep(freq, groups, values, g, test);
      if |data| >= MinSample {
        rows := rows + [RowFor(freq, group, data, test)];
      }
    }
  }

  // ---------------------------------------------------------------------
  // What the table holds
  // ---------------------------------------------------------------------

  /** A row as the loop writes it: at least three respondents, both dfs equal to n, the star rule. */
  predicate WellFormed(r: NormRow)
  {
    r.n >= MinSample && r.ksDf == r.n && r.swDf == r.n && (r.ksStar <==> r.ksP > Alpha)
  }

  /** The position of a row's label in `group_order`. */
  function GroupPos(r: NormRow): nat
    requires r.group in Displays
  {
    FirstIndex(Displays, r.group)
  }

  /** The position of a row's band in `freq_cols`. */
  function BandPos(r: NormRow): nat
    requires r.freq in BandNames
  {
    FirstIndex(BandNames, r.freq)
  }

  /** The slot a row fills among the twelve (band, group) pairs. */
  function Slot(r: NormRow): nat
    requires r.freq in BandNames && r.group in Displays
  {
    4 * BandPos(r) + GroupPos(r)
  }

  /** A row of band `freq` for one of the first `k` groups, counting that group's respondents. */
  predicate InBand(r: NormRow, freq: string, groups: seq<string>, k: nat)
  {
    r.freq == freq && WellFormed(r) && r.group in Displays && GroupPos(r) < k && GroupPos(r) < 4
    && r.n == Count(groups, GroupOrder[GroupPos(r)])
  }

  /** Rows of band `freq` for the first `k` groups, strictly in `group_order`. */
  predicate BandShape(rows: seq<NormRow>, freq: string, groups: seq<string>, k: nat)
  {
    (forall i :: 0 <= i < |rows| ==> InBand(rows[i], freq, groups, k))
    && (forall i, j :: 0 <= i < j < |rows| ==> GroupPos(rows[i]) < GroupPos(rows[j]))
  }

  /** Well-formed rows of the first `k` bands, strictly in band-then-group order. */
  predicate TableShape(rows: seq<NormRow>, k: nat)
  {
    (forall i :: 0 <= i < |rows| ==>
       WellFormed(rows[i]) && rows[i].freq in BandNames && rows[i].group in Displays && BandPos(rows[i]) < k)
    && (forall i, j :: 0 <= i < j < |rows| ==> Slot(rows[i]) < Slot(rows[j]))
  }

  /** Some row carries the label of group `g`. */
  predicate HasGroup(rows: seq<NormRow>, g: nat)
    requires g < 4
  {
    exists i :: 0 <= i < |rows| && rows[i].group == Displays[g]
  }

  /** Some row is that of band `b` and group `g`. */
  predicate HasPair(rows: seq<NormRow>, b: nat, g: nat)
    requires b < 3 && g < 4
  {
    exists i :: 0 <= i < |rows| && rows[i].freq == BandNames[b] && rows[i].group == Displays[g]
  }

  /** A row of band `freq` whose statistics are the two tests run on its own group's values. */
  predicate TestedIn(r: NormRow, freq: string, groups: seq<string>, values: seq<int>, test: seq<int> -> TestResult)
    requires |groups| == |values|
  {
    r.freq == freq && r.group in Displays && GroupPos(r) < 4
    && r == RowFor(freq, GroupOrder[GroupPos(r)], Select(groups, values, GroupOrder[GroupPos(r)]), test)
  }

  /** A table row whose statistics are the two tests run on its own group's totals in its own band. */
  predicate Tested(r: NormRow, p: Prepared, test: seq<int> -> TestResult)
    requires Shaped(p, 3)
  {
    r.freq in BandNames && BandPos(r) < 3 && TestedIn(r, r.freq, p.groups, p.totals[BandPos(r)], test)
  }

  /** The position of a printed label in `Displays` is the position it was printed from. */
  lemma GroupPosAt(r: NormRow, g: nat)
    requires g < 4 && r.group == Displays[g]
    ensures r.group in Displays && GroupPos(r) == g
  {
    DisplaysDistinct();
  }

  lemma BandNamesDistinct()
    ensures Distinct(BandNames)
  {
  }

  /** A row of `a + b` with group `g` is one of `a` or one of `b`. */
  lemma HasGroupConcat(a: seq<NormRow>, b: seq<NormRow>, g: nat)
    requires g < 4
    ensures HasGroup(a + b, g) <==> HasGroup(a, g) || HasGroup(b, g)
  {
    var r := a + b;
    if HasGroup(r, g) {
      var i :| 0 <= i < |r| && r[i].group == Displays[g];
      if i < |a| {
        assert a[i] == r[i];
      } else {
        assert b[i - |a|] == r[i];
      }
    }
    if HasGroup(a, g) {
      var i :| 0 <= i < |a| && a[i].group == Displays[g];
      assert r[i] == a[i];
    }
    if HasGroup(b, g) {
      var j :| 0 <= j < |b| && b[j].group == Displays[g];
      assert r[|a| + j] == b[j];
    }
  }

  /** A row of `a + b` for band `bd` and group `g` is one of `a` or one of `b`. */
  lemma HasPairConcat(a: seq<NormRow>, b: seq<NormRow>, bd: nat, g: nat)
    requires bd < 3 && g < 4
    ensures HasPair(a + b, bd, g) <==> HasPair(a, bd, g) || HasPair(b, bd, g)
  {
    var r := a + b;
    if HasPair(r, bd, g) {
      var i :| 0 <= i < |r| && r[i].freq == BandNames[bd] && r[i].group == Displays[g];
      if i < |a| {
        assert a[i] == r[i];
      } else {
        assert b[i - |a|] == r[i];
      }
    }
    if HasPair(a, bd, g) {
      var i :| 0 <= i < |a| && a[i].freq == BandNames[bd] && a[i].group == Displays[g];
      assert r[i] == a[i];
    }
    if HasPair(b, bd, g) {
      var j :| 0 <= j < |b| && b[j].freq == BandNames[bd] && b[j].group == Displays[g];
      assert r[|a| + j] == b[j];
    }
  }

  /** Among rows all of band `c`, those of band `bd` are all of them or none. */
  lemma PairOfBand(rows: seq<NormRow>, c: nat, bd: nat, g: nat)
    requires c < 3 && bd < 3 && g < 4
    requires forall i :: 0 <= i < |rows| ==> rows[i].freq == BandNames[c]
    ensures HasPair(rows, bd, g) <==> bd == c && HasGroup(rows, g)
  {
    BandNamesDistinct();
  }

  /** Rows none of which is of band `bd` hold no row for it. */
  lemma NoPairOfBand(rows: seq<NormRow>, bd: nat, g: nat)
    requires bd < 3 && g < 4
    requires forall i :: 0 <= i < |rows| ==> rows[i].freq != BandNames[bd]
    ensures !HasPair(rows, bd, g)
  {
  }

  /** The entry of group `g`: a row exactly when at least three respondents carry `g`, printed with its label. */
  lemma EntryFacts(freq: string, groups: seq<string>, values: seq<int>, g: nat, test: seq<int> -> TestResult)
    requires |groups| == |values| && g < 4
    ensures |Entry(freq, groups, values, g, test)| <= 1
    ensures |Entry(freq, groups, values, g, test)| == 1 <==> Count(groups, GroupOrder[g]) >= MinSample
    ensures |Entry(freq, groups, values, g, test)| == 1 ==>
              InBand(Entry(freq, groups, values, g, test)[0], freq, groups, g + 1)
              && Entry(freq, groups, values, g, test)[0].group == Displays[g]
              && GroupPos(Entry(freq, groups, values, g, test)[0]) == g
    ensures |Entry(freq, groups, values, g, test)| == 1 ==>
              Entry(freq, groups, values, g, test)[0]
                == RowFor(freq, GroupOrder[g], Select(groups, values, GroupOrder[g]), test)
  {
    SelectCount(groups, values, GroupOrder[g]);
    DisplayAt(g);
    var e := Entry(freq, groups, values, g, test);
    if |e| == 1 {
      GroupPosAt(e[0], g);
    }
  }

  /**
    The rows of one band for the first `k` groups: at most `k`, each of that
    band and well formed, counting its group, and strictly in `group_order`.
  */
  lemma {:induction false} GroupRowsShape(freq: string, groups: seq<string>, values: seq<int>, k: nat,
                                          test: seq<int> -> TestResult)
    requires |groups| == |values| && k <= 4
    ensures |GroupRows(freq, groups, values, k, test)| <= k
    ensures BandShape(GroupRows(freq, groups, values, k, test), freq, groups, k)
  {
    if k > 0 {
      GroupRowsShape(freq, groups, values, k - 1, test);
      EntryFacts(freq, groups, values, k - 1, test);
      var prev := GroupRows(freq, groups, values, k - 1, test);
      var last := Entry(freq, groups, values, k - 1, test);
      assert GroupRows(freq, groups, values, k, test) == prev + last;
    }
  }

  /** The rows of the first `k` groups carry none of the later labels. */
  lemma {:induction false} GroupRowsBefore(freq: string, groups: seq<string>, values: seq<int>, k: nat, g: nat,
                                           test: seq<int> -> TestResult)
    requires |groups| == |values| && k <= g < 4
    ensures !HasGroup(GroupRows(freq, groups, values, k, test), g)
  {
    if k > 0 {
      GroupRowsBefore(freq, groups, values, k - 1, g, test);
      EntryFacts(freq, groups, values, k - 1, test);
      DisplaysDistinct();
      var prev := GroupRows(freq, groups, values, k - 1, test);
      var last := Entry(freq, groups, values, k - 1, test);
      var r := prev + last;
      assert GroupRows(freq, groups, values, k, test) == r;
      forall i | 0 <= i < |r| ensures r[i].group != Displays[g] {
        if i < |prev| {
          assert r[i] == prev[i];
        } else {
          assert r[i] == last[0];
        }
      }
    }
  }

  /** The `k`-th group has a row among the first `k` groups' rows exactly when at least three respondents carry it. */
  lemma GroupRowsLast(freq: string, groups: seq<string>, values: seq<int>, k: nat, test: seq<int> -> TestResult)
    requires |groups| == |values| && 0 < k <= 4
    ensures HasGroup(GroupRows(freq, groups, values, k, test), k - 1) <==> Count(groups, GroupOrder[k - 1]) >= MinSample
  {
    var prev := GroupRows(freq, groups, values, k - 1, test);
    var last := Entry(freq, groups, values, k - 1, test);
    assert GroupRows(freq, groups, values, k, test) == prev + last;
    EntryFacts(freq, groups, values, k - 1, test);
    GroupRowsBefore(freq, groups, values, k - 1, k - 1, test);
    HasGroupConcat(prev, last, k - 1);
  }

  /** Adding the `k`-th group's entry keeps every earlier group's row and adds none. */
  lemma GroupRowsKeep(freq: string, groups: seq<string>, values: seq<int>, k: nat, g: nat, test: seq<int> -> TestResult)
    requires |groups| == |values| && g + 1 < k <= 4
    ensures HasGroup(GroupRows(freq, groups, values, k, test), g) <==> HasGroup(GroupRows(freq, groups, values, k - 1, test), g)
  {
    var prev := GroupRows(freq, groups, values, k - 1, test);
    var last := Entry(freq, groups, values, k - 1, test);
    assert GroupRows(freq, groups, values, k, test) == prev + last;
    EntryFacts(freq, groups, values, k - 1, test);
    DisplaysDistinct();
    HasGroupConcat(prev, last, g);
  }

  /** Group `g` has a row among the first `k` groups' rows exactly when at least three respondents carry it. */
  lemma {:induction false} GroupRowsComplete(freq: string, groups: seq<string>, values: seq<int>, k: nat, g: nat,
                                             test: seq<int> -> TestResult)
    requires |groups| == |values| && g < k <= 4
    ensures HasGroup(GroupRows(freq, groups, values, k, test), g) <==> Count(groups, GroupOrder[g]) >= MinSample
  {
    if g == k - 1 {
      GroupRowsLast(freq, groups, values, k, test);
    } else {
      GroupRowsKeep(freq, groups, values, k, g, test);
      GroupRowsComplete(freq, groups, values, k - 1, g, test);
    }
  }

  /** Every row of one band's rows is of that band. */
  lemma {:induction false} GroupRowsFreq(freq: string, groups: seq<string>, values: seq<int>, k: nat,
                                         test: seq<int> -> TestResult)
    requires |groups| == |values| && k <= 4
    ensures forall i :: 0 <= i < |GroupRows(freq, groups, values, k, test)| ==>
              GroupRows(freq, groups, values, k, test)[i].freq == freq
  {
    GroupRowsShape(freq, groups, values, k, test);
  }

  /** Every row of one band's rows holds the tests run on that band's values of its own group. */
  lemma {:induction false} GroupRowsTested(freq: string, groups: seq<string>, values: seq<int>, k: nat,
                                           test: seq<int> -> TestResult)
    requires |groups| == |values| && k <= 4
    ensures forall i :: 0 <= i < |GroupRows(freq, groups, values, k, test)| ==>
              TestedIn(GroupRows(freq, groups, values, k, test)[i], freq, groups, values, test)
  {
    if k > 0 {
      GroupRowsTested(freq, groups, values, k - 1, test);
      EntryFacts(freq, groups, values, k - 1, test);
      var prev := GroupRows(freq, groups, values, k - 1, test);
      var last := Entry(freq, groups, values, k - 1, test);
      var r := prev + last;
      assert GroupRows(freq, groups, values, k, test) == r;
      forall i | 0 <= i < |r| ensures TestedIn(r[i], freq, groups, values, test) {
        if i < |prev| {
          assert r[i] == prev[i];
        } else {
          assert r[i] == last[0];
        }
      }
    }
  }

  /**
    The rows of the first `k` bands: at most four per band, each of one of
    those bands and well formed, strictly ordered by (band, group).
  */
  lemma {:induction false} BandRowsShape(p: Prepared, k: nat, test: seq<int> -> TestResult)
    requires Shaped(p, 3) && k <= 3
    ensures |BandRows(p, k, test)| <= 4 * k
    ensures TableShape(BandRows(p, k, test), k)
  {
    if k > 0 {
      BandRowsShape(p, k - 1, test);
      GroupRowsShape(BandNames[k - 1], p.groups, p.totals[k - 1], 4, test);
      var prev := BandRows(p, k - 1, test);
      var last := GroupRows(BandNames[k - 1], p.groups, p.totals[k - 1], 4, test);
      ShapeAppend(prev, last, k - 1, p.groups);
    }
  }

  /** Appending one band's rows after the rows of the bands before it keeps the table's shape. */
  lemma ShapeAppend(prev: seq<NormRow>, last: seq<NormRow>, c: nat, groups: seq<string>)
    requires c < 3 && TableShape(prev, c) && BandShape(last, BandNames[c], groups, 4)
    ensures TableShape(prev + last, c + 1)
  {
    var r := prev + last;
    BandNamesDistinct();
    forall i | 0 <= i < |last| ensures BandPos(last[i]) == c {
      assert last[i].freq == BandNames[c];
    }
    forall i | 0 <= i < |r|
      ensures WellFormed(r[i]) && r[i].freq in BandNames && r[i].group in Displays && BandPos(r[i]) < c + 1
    {
      if i < |prev| {
        assert r[i] == prev[i];
      } else {
        assert r[i] == last[i - |prev|];
      }
    }
    forall i, j | 0 <= i < j < |r| ensures Slot(r[i]) < Slot(r[j]) {
      if j < |prev| {
        assert r[i] == prev[i] && r[j] == prev[j];
      } else if i >= |prev| {
        assert r[i] == last[i - |prev|] && r[j] == last[j - |prev|];
      } else {
        assert r[i] == prev[i] && r[j] == last[j - |prev|];
        assert GroupPos(r[i]) < 4;
      }
    }
  }

  /** The rows of the first `k` bands carry none of the later band names. */
  lemma {:induction false} BandRowsBefore(p: Prepared, k: nat, b: nat, test: seq<int> -> TestResult)
    requires Shaped(p, 3) && k <= b < 3
    ensures forall i :: 0 <= i < |BandRows(p, k, test)| ==> BandRows(p, k, test)[i].freq != BandNames[b]
  {
    if k > 0 {
      BandRowsBefore(p, k - 1, b, test);
      var prev := BandRows(p, k - 1, test);
      var last := GroupRows(BandNames[k - 1], p.groups, p.totals[k - 1], 4, test);
      var r := prev + last;
      assert BandRows(p, k, test) == r;
      GroupRowsFreq(BandNames[k - 1], p.groups, p.totals[k - 1], 4, test);
      BandNamesDistinct();
      forall i | 0 <= i < |r| ensures r[i].freq != BandNames[b] {
        if i < |prev| {
          assert r[i] == prev[i];
        } else {
          assert r[i] == last[i - |prev|];
        }
      }
    }
  }

  /** The `k`-th band's rows for group `g` are those of its own loop. */
  lemma BandRowsLast(p: Prepared, k: nat, g: nat, test: seq<int> -> TestResult)
    requires Shaped(p, 3) && 0 < k <= 3 && g < 4
    ensures HasPair(BandRows(p, k, test), k - 1, g)
        <==> HasGroup(GroupRows(BandNames[k - 1], p.groups, p.totals[k - 1], 4, test), g)
  {
    var prev := BandRows(p, k - 1, test);
    var last := GroupRows(BandNames[k - 1], p.groups, p.totals[k - 1], 4, test);
    GroupRowsFreq(BandNames[k - 1], p.groups, p.totals[k - 1], 4, test);
    PairOfBand(last, k - 1, k - 1, g);
    BandRowsBefore(p, k - 1, k - 1, test);
    NoPairOfBand(prev, k - 1, g);
    HasPairConcat(prev, last, k - 1, g);
  }

  /** Adding the `k`-th band's rows keeps every earlier band's rows and adds none to them. */
  lemma BandRowsKeep(p: Prepared, k: nat, b: nat, g: nat, test: seq<int> -> TestResult)
    requires Shaped(p, 3) && b + 1 < k <= 3 && g < 4
    ensures HasPair(BandRows(p, k, test), b, g) <==> HasPair(BandRows(p, k - 1, test), b, g)
  {
    var prev := BandRows(p, k - 1, test);
    var last := GroupRows(BandNames[k - 1], p.groups, p.totals[k - 1], 4, test);
    GroupRowsFreq(BandNames[k - 1], p.groups, p.totals[k - 1], 4, test);
    PairOfBand(last, k - 1, b, g);
    HasPairConcat(prev, last, b, g);
  }

  /** Band `b` has a row for group `g` exactly when at least three respondents carry `g`. */
  lemma {:induction false} BandRowsComplete(p: Prepared, k: nat, b: nat, g: nat, test: seq<int> -> TestResult)
    requires Shaped(p, 3) && b < k <= 3 && g < 4
    ensures HasPair(BandRows(p, k, test), b, g) <==> Count(p.groups, GroupOrder[g]) >= MinSample
  {
    if b == k - 1 {
      BandRowsLast(p, k, g, test);
      GroupRowsComplete(BandNames[b], p.groups, p.totals[b], 4, g, test);
    } else {
      BandRowsKeep(p, k, b, g, test);
      BandRowsComplete(p, k - 1, b, g, test);
    }
  }

  /** Every row of the first `k` bands holds the tests run on its own band's totals of its own group. */
  lemma {:induction false} BandRowsTested(p: Prepared, k: nat, test: seq<int> -> TestResult)
    requires Shaped(p, 3) && k <= 3
    ensures forall i :: 0 <= i < |BandRows(p, k, test)| ==> Tested(BandRows(p, k, test)[i], p, test)
  {
    if k > 0 {
      BandRowsTested(p, k - 1, test);
      GroupRowsTested(BandNames[k - 1], p.groups, p.totals[k - 1], 4, test);
      BandNamesDistinct();
      var prev := BandRows(p, k - 1, test);
      var last := GroupRows(BandNames[k - 1], p.groups, p.totals[k - 1], 4, test);
      var r := prev + last;
      assert BandRows(p, k, test) == r;
      forall i | 0 <= i < |r| ensures Tested(r[i], p, test) {
        if i < |prev| {
          assert r[i] == prev[i];
        } else {
          assert r[i] == last[i - |prev|];
          assert r[i].freq == BandNames[k - 1];
          assert BandPos(r[i]) == k - 1;
        }
      }
    }
  }

  /**
    The table has at most twelve rows, each well formed, strictly in
    band-then-group order, one for a (band, group) pair exactly when the
    group has at least three respondents, and each holding the two tests run
    on that group's totals in that band.
  */
  lemma TableFacts(p: Prepared, test: seq<int> -> TestResult)
    requires Shaped(p, 3)
    ensures |NormalityTable(p, test)| <= 12
    ensures TableShape(NormalityTable(p, test), 3)
    ensures forall b, g :: 0 <= b < 3 && 0 <= g < 4 ==>
              (HasPair(NormalityTable(p, test), b, g) <==> Count(p.groups, GroupOrder[g]) >= MinSample)
    ensures forall i :: 0 <= i < |NormalityTable(p, test)| ==> Tested(NormalityTable(p, test)[i], p, test)
  {
    BandRowsShape(p, 3, test);
    BandRowsTested(p, 3, test);
    forall b, g | 0 <= b < 3 && 0 <= g < 4
      ensures HasPair(NormalityTable(p, test), b, g) <==> Count(p.groups, GroupOrder[g]) >= MinSample
    {
      BandRowsComplete(p, 3, b, g, test);
    }
  }

  // ---------------------------------------------------------------------
  // The drawing loop
  // ---------------------------------------------------------------------

  /** `sw_p < 0.05`: the Shapiro-Wilk cell is shaded red and bold. */
  predicate Alert(r: NormRow)
  {
    r.swP < Alpha
  }

  /** `row['freq'] if row['freq'] != prev_freq else ''`, with `prev_freq` starting as `None`. */
  predicate ShowsFreq(rows: seq<NormRow>, i: nat)
    requires i < |rows|
  {
    i == 0 || rows[i].freq != rows[i - 1].freq
  }

  /** The first column's text of row `i`. */
  function FreqText(rows: seq<NormRow>, i: nat): string
    requires i < |rows|
  {
    if ShowsFreq(rows, i) then rows[i].freq else ""
  }

  /**
    The first column's text and whether the Shapiro-Wilk cell is highlighted,
    row by row, as the drawing loop decides them while updating `prev_freq`.
  */
  method RowMarks(rows: seq<NormRow>) returns (texts: seq<string>, alerts: seq<bool>)
    ensures |texts| == |rows| && |alerts| == |rows|
    ensures forall i :: 0 <= i < |rows| ==> texts[i] == FreqText(rows, i)
    ensures forall i :: 0 <= i < |rows| ==> alerts[i] == Alert(rows[i])
  {
    texts, alerts := [], [];
    var prev: Option<string> := None;
    for i := 0 to |rows|
      invariant |texts| == i && |alerts| == i
      invariant i == 0 ==> prev == None
      invariant i > 0 ==> prev == Some(rows[i - 1].freq)
      invariant forall j :: 0 <= j < i ==> texts[j] == FreqText(rows, j)
      invariant forall j :: 0 <= j < i ==> alerts[j] == Alert(rows[j])
    {
      var text := if prev != Some(rows[i].freq) then rows[i].freq else "";
      assert text == FreqText(rows, i);
      prev := Some(rows[i].freq);
      texts := texts + [text];
      alerts := alerts + [Alert(rows[i])];
    }
  }

  /** No row before row `i` is of row `i`'s band. */
  predicate FirstOfBand(rows: seq<NormRow>, i: nat)
    requires i < |rows|
  {
    forall j :: 0 <= j < i ==> rows[j].freq != rows[i].freq
  }

  /** A later slot never belongs to an earlier band. */
  lemma SlotBand(x: NormRow, y: NormRow)
    requires x.freq in BandNames && x.group in Displays && y.freq in BandNames && y.group in Displays
    requires Slot(x) < Slot(y)
    ensures BandPos(x) <= BandPos(y)
  {
  }

  /**
    In rows ordered by slot the band name is printed on exactly the first
    row of each band: a row shows it iff no earlier row has the same band.
  */
  lemma ShownOnceOrdered(r: seq<NormRow>)
    requires forall i :: 0 <= i < |r| ==> r[i].freq in BandNames && r[i].group in Displays
    requires forall i, j :: 0 <= i < j < |r| ==> Slot(r[i]) < Slot(r[j])
    ensures forall i :: 0 <= i < |r| ==> (ShowsFreq(r, i) <==> FirstOfBand(r, i))
  {
    forall i | 0 <= i < |r|
      ensures ShowsFreq(r, i) <==> FirstOfBand(r, i)
    {
      if i > 0 && r[i].freq != r[i - 1].freq {
        SlotBand(r[i - 1], r[i]);
        assert BandPos(r[i - 1]) < BandPos(r[i]);
        forall j | 0 <= j < i ensures r[j].freq != r[i].freq {
          if j < i - 1 {
            SlotBand(r[j], r[i - 1]);
          }
        }
      }
    }
  }

  /** On the table the band name is printed on exactly the first row of each band. */
  lemma FreqShownOnce(p: Prepared, test: seq<int> -> TestResult)
    requires Shaped(p, 3)
    ensures forall i :: 0 <= i < |NormalityTable(p, test)| ==>
              (ShowsFreq(NormalityTable(p, test), i) <==> FirstOfBand(NormalityTable(p, test), i))
  {
    TableFacts(p, test);
    ShownOnceOrdered(NormalityTable(p, test));
  }
}
