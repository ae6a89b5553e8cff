/**
  The scoring half of plot.py and its column helpers: the same block
  discovery, response extraction and error count as judge.py, but each
  respondent's record holds only the score columns; `get_cols_sorted` picks
  the columns of one centre and orders them by their leading number
  ascending, and the bar labels are those numbers.
*/
module Plot {
  import opened Wrappers
  import opened Strings
  import opened Records
  import opened Sorting
  import opened AnswerKey
  import opened Survey
  import opened Judge

  // ---------------------------------------------------------------------
  // Scoring
  // ---------------------------------------------------------------------

  /** The `err` loop: one error per pair unless (F, First) or (S, Second) holds. */
  method CountErr(pattern: string, block: string, resp: Responses) returns (err: nat)
    requires |pattern| >= 4
    ensures err == ErrorCount(pattern, block, resp)
    ensures err <= 4
  {
    err := 0;
    for p := 1 to 5
      invariant err == ErrorsUpTo(pattern, block, resp, p - 1)
    {
      var ans := Answer(resp, block, p);
      var corr := pattern[p - 1];
      if !((corr == 'F' && ans == Some(First)) || (corr == 'S' && ans == Some(Second))) {
        err := err + 1;
      }
    }
    ErrorsUpToFacts(pattern, block, resp, 4);
  }

  /** The record of one respondent: the score columns alone, starting from an empty record. */
  function PlotRecord(headers: seq<string>, row: Row): Dict<Value>
  {
    var keys := CombinedKeys();
    var blocks := Dedup(BlockNames(headers));
    assert PatternsReadable(keys) by { CombinedKeysReadable(); }
    Scored([], keys, KeyLabels(keys), blocks, ResponsesOf(headers, row), ScoredCount(keys, blocks))
  }

  /** One block of the scoring loop: default the column to 0, count, add. */
  method AddBlock(rec: Dict<Value>, e: KeyEntry, block: string, resp: Responses) returns (r: Dict<Value>)
    requires |e.pattern| >= 4
    ensures r == ScoreBlock(rec, KeyLabel(e), e.pattern, block, resp)
  {
    var colName := KeyLabel(e);
    r := rec;
    if colName !in Keys(r) {
      r := Put(r, colName, Count(0));
    }
    var err := CountErr(e.pattern, block, resp);
    r := Put(r, colName, Count(CountAt(r, colName) + err));
  }

  /** The body of the row loop: responses of the row, then the scoring loop. */
  method ScoreRespondent(headers: seq<string>, blocks: seq<string>, keys: seq<KeyEntry>, row: Row) returns (rec: Dict<Value>)
    requires blocks == Dedup(BlockNames(headers))
    requires keys == CombinedKeys()
    ensures rec == PlotRecord(headers, row)
  {
    CombinedKeysReadable();
    var resp := ExtractResponses(headers, row, SelectPhrase);
    ghost var labels, n := KeyLabels(keys), ScoredCount(keys, blocks);
    rec := [];
    var i := 0;
    while i < |blocks|
      invariant 0 <= i <= n
      invariant rec == Scored([], keys, labels, blocks, resp, i)
      decreases |blocks| - i
    {
      if i >= |keys| {
        break;
      }
      ScoredNext([], keys, blocks, resp, i);
      rec := AddBlock(rec, keys[i], blocks[i], resp);
      i := i + 1;
    }
    assert i == n;
  }

  /** The plot records as a function of the row. */
  function PlotFn(headers: seq<string>): Row -> Dict<Value>
  {
    row => PlotRecord(headers, row)
  }

  /** The records of the data rows: one per row after the first. */
  function PlotRecords(headers: seq<string>, rows: seq<Row>): seq<Dict<Value>>
  {
    PerDataRow(rows, PlotFn(headers))
  }

  /** Section 1 of `generate_plots_with_id_names`: the score records `df_scores` is built from. */
  method ScoreSurvey(headers: seq<string>, rows: seq<Row>) returns (records: seq<Dict<Value>>)
    ensures records == PlotRecords(headers, rows)
  {
    var keys := BuildKeys();
    var blocks := DiscoverBlocks(headers);
    ghost var f := PlotFn(headers);
    var data := DataRows(rows);
    records := [];
    for k := 0 to |data|
      invariant records == PerDataRow(rows, f)[..k]
    {
      var rec := ScoreRespondent(headers, blocks, keys, data[k]);
      PerDataRowStep(rows, f, records, rec, k);
      records := records + [rec];
    }
    PerDataRowDone(rows, f, records);
  }

  /**
    A plot record holds exactly the score columns of the scored blocks, in
    block order, and each holds the same count as in the judge.py record
    of the same row, a number between 0 and 4.
  */
  lemma PlotRecordFacts(headers: seq<string>, row: Row)
    ensures Keys(PlotRecord(headers, row)) == KeyLabels(CombinedKeys())[..BlocksScored(headers)]
    ensures PatternsReadable(CombinedKeys())
    ensures forall i :: 0 <= i < BlocksScored(headers) ==>
              Get(PlotRecord(headers, row), KeyLabel(CombinedKeys()[i])) == Get(RowRecord(headers, row), KeyLabel(CombinedKeys()[i]))
    ensures forall i :: 0 <= i < BlocksScored(headers) ==>
              0 <= CountAt(PlotRecord(headers, row), KeyLabel(CombinedKeys()[i])) <= 4
  {
    var keys := CombinedKeys();
    var blocks := Dedup(BlockNames(headers));
    var n := BlocksScored(headers);
    var resp := ResponsesOf(headers, row);
    CombinedKeysReadable();
    KeyLabelsFacts();
    ScoredFacts([], keys, KeyLabels(keys), blocks, resp, n);
    ScoredValues([], keys, blocks, resp, n);
    RowRecordScores(headers, row);
  }

  /** With at least one data row, `df_scores` has exactly the score columns of the scored blocks. */
  lemma PlotColumns(headers: seq<string>, rows: seq<Row>)
    requires |rows| >= 2
    ensures FrameColumns(PlotRecords(headers, rows)) == KeyLabels(CombinedKeys())[..BlocksScored(headers)]
  {
    var recs := PlotRecords(headers, rows);
    var cols := KeyLabels(CombinedKeys())[..BlocksScored(headers)];
    forall i | 0 <= i < |recs| ensures Keys(recs[i]) == cols {
      PlotRecordFacts(headers, rows[i + 1]);
    }
    KeyLabelsFacts();
    assert Distinct(cols) by {
      forall i, j | 0 <= i < j < |cols| ensures cols[i] != cols[j] {
        assert cols[i] == KeyLabels(CombinedKeys())[i] && cols[j] == KeyLabels(CombinedKeys())[j];
      }
    }
    FrameColumnsUniform(recs, cols);
  }

  // ---------------------------------------------------------------------
  // get_cols_sorted and the bar labels
  // ---------------------------------------------------------------------

  /** `int(re.search(r'^(\d+)', x).group(1))` for a column that starts with a digit. */
  function LeadInt(c: string): (r: int)
    ensures r >= 0
    ensures HasLeadInt(c) && c[0] != '0' ==> NatToString(r) == LeadingDigits(c)
  {
    LeadingDigitsCanonical(c);
    DigitsToNat(LeadingDigits(c))
  }

  /** A leading digit run without a leading zero reads back as itself. */
  lemma LeadingDigitsCanonical(c: string)
    ensures HasLeadInt(c) && c[0] != '0' ==> NatToString(DigitsToNat(LeadingDigits(c))) == LeadingDigits(c)
  {
    if HasLeadInt(c) && c[0] != '0' {
      assert LeadingDigits(c)[0] == c[0];
      DigitsToNatCanonical(LeadingDigits(c));
    }
  }

  /** The column starts with a digit, so the search in the sort key succeeds. */
  predicate HasLeadInt(c: string)
  {
    |LeadingDigits(c)| > 0
  }

  /**
    `get_cols_sorted(all_cols, freq_tag)`: the columns containing the tag,
    sorted by their leading number ascending; `None` when one of them does
    not start with a digit and the key function raises.
  */
  function GetColsSorted(allCols: seq<string>, tag: string): (r: Option<seq<string>>)
    ensures r.Some? <==> forall c :: c in allCols && Contains(c, tag) ==> HasLeadInt(c)
  {
    var cols := Tagged(allCols, tag);
    if forall c :: c in cols ==> HasLeadInt(c) then Some(SortBy(cols, LeadInt)) else None
  }

  /**
    A result holds exactly the tagged columns (as a permutation), sorted by
    leading number ascending, columns with equal numbers in input order.
  */
  lemma GetColsSortedFacts(allCols: seq<string>, tag: string)
    requires GetColsSorted(allCols, tag).Some?
    ensures multiset(GetColsSorted(allCols, tag).value) == multiset(Tagged(allCols, tag))
    ensures forall x :: x in GetColsSorted(allCols, tag).value <==> x in allCols && Contains(x, tag)
    ensures SortedBy(GetColsSorted(allCols, tag).value, LeadInt)
    ensures forall k :: WithKey(GetColsSorted(allCols, tag).value, LeadInt, k) == WithKey(Tagged(allCols, tag), LeadInt, k)
  {
    var cols := Tagged(allCols, tag);
    SortByFacts(cols, LeadInt);
    var r := SortBy(cols, LeadInt);
    assert r == GetColsSorted(allCols, tag).value;
    forall x ensures x in r <==> x in cols {
      assert x in r <==> x in multiset(r);
      assert x in cols <==> x in multiset(cols);
    }
  }

  /** `str(int(m.group(1)))` for every column: the canonical decimal of its leading number. */
  function BarLabels(cols: seq<string>): (r: seq<string>)
    requires forall c :: c in cols ==> HasLeadInt(c)
    ensures |r| == |cols|
    ensures forall i :: 0 <= i < |cols| ==> AllDigits(r[i]) && |r[i]| > 0 && DigitsToNat(r[i]) == LeadInt(cols[i])
    ensures forall i :: 0 <= i < |cols| ==> r[i] == NatToString(LeadInt(cols[i]) as nat)
    ensures forall i :: 0 <= i < |cols| && r[i][0] == '0' ==> r[i] == "0"
  {
    seq(|cols|, i requires 0 <= i < |cols| => NatToString(DigitsToNat(LeadingDigits(cols[i]))))
  }

  /**
    For score columns the bar labels are the deltas, in column order; the
    sort key of a score column is its delta.
  */
  lemma BarLabelsOfLabels(deltas: seq<nat>, center: nat)
    ensures forall i :: 0 <= i < |deltas| ==> HasLeadInt(Label(deltas[i], center)) && LeadInt(Label(deltas[i], center)) == deltas[i]
    ensures var cols := seq(|deltas|, i requires 0 <= i < |deltas| => Label(deltas[i], center));
            (forall c :: c in cols ==> HasLeadInt(c))
            && BarLabels(cols) == seq(|deltas|, i requires 0 <= i < |deltas| => NatToString(deltas[i]))
  {
    forall i | 0 <= i < |deltas| ensures HasLeadInt(Label(deltas[i], center)) && LeadInt(Label(deltas[i], center)) == deltas[i] {
      LabelLeadingDigits(deltas[i], center);
    }
  }

  /**
    On the columns of the score table, each of the three calls succeeds and
    yields exactly that centre's score columns in ascending delta order: the
    sort key of every score column is its delta.
  */
  lemma ScoreColumnsSorted(headers: seq<string>, tag: string)
    requires tag in {"(200Hz)", "(1000Hz)", "(5000Hz)"}
    ensures GetColsSorted(KeyLabels(CombinedKeys())[..BlocksScored(headers)], tag).Some?
    ensures forall x :: x in GetColsSorted(KeyLabels(CombinedKeys())[..BlocksScored(headers)], tag).value <==>
              x in KeyLabels(CombinedKeys())[..BlocksScored(headers)] && Contains(x, tag)
    ensures SortedBy(GetColsSorted(KeyLabels(CombinedKeys())[..BlocksScored(headers)], tag).value, LeadInt)
    ensures forall i :: 0 <= i < BlocksScored(headers) ==>
              LeadInt(KeyLabels(CombinedKeys())[i]) == Delta(CombinedKeys()[i])
  {
    var keys := CombinedKeys();
    var cols := KeyLabels(keys)[..BlocksScored(headers)];
    forall i | 0 <= i < |keys| ensures HasLeadInt(KeyLabel(keys[i])) && LeadInt(KeyLabel(keys[i])) == Delta(keys[i]) {
      LabelLeadingDigits(Delta(keys[i]), keys[i].center);
    }
    forall c | c in cols ensures HasLeadInt(c) {
      var i :| 0 <= i < |cols| && cols[i] == c;
      assert c == KeyLabel(keys[i]);
    }
    GetColsSortedFacts(cols, tag);
  }
}
