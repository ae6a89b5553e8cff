/**
  The translator of transfer.py: for every respondent, copy the metadata
  under English names and the demographic answers under their own
  headers, then write each marked option as "First", "Second" or "Equal"
  under the column "{block} - Pair {digits}".
*/
module Transfer {
  import opened Wrappers
  import opened Strings
  import opened Records
  import opened Survey

  /** Chinese export header -> English metadata column (this script's headers carry spaces). */
  const MetadataTable: seq<(string, string)> :=
    [("作答 ID", "Response ID"), ("用户 ID", "User ID"),
     ("开始时间", "Start Time"), ("结束时间", "End Time"),
     ("作答总时长 (秒)", "Total Duration (s)"), ("IP", "IP Address"),
     ("经度", "Longitude"), ("纬度", "Latitude"),
     ("省份", "Province"), ("城市", "City"),
     ("设备类型", "Device Type"), ("操作系统类型", "OS Type"),
     ("浏览器类型", "Browser Type"), ("屏幕分辨率", "Screen Resolution")]

  /** Substrings of the demographic questions, in output order. */
  const DemoKeywords: seq<string> :=
    ["I hereby confirm that", "Please select your age group", "What is your first language?",
     "What other languages are you fluent in", "Have you ever had, or do you still have",
     "What is it/was it", "How long did you do it"]

  /** The phrase a pair-selection header must contain. */
  const SelectPhrase: string := "Please select the one you think is higher in each pair"

  /** `f"{current_audio_block} - Pair {pair_num}"`, with the pair digits as captured. */
  function PairColumn(s: Selection): string
  {
    s.block + " - Pair " + s.pair
  }

  /** `record` after `row_data[PairColumn(s)] = option` for every selection in order. */
  function Merged(record: Dict<string>, sel: seq<Option<Selection>>): Dict<string>
  {
    if |sel| == 0 then record
    else
      var d := Merged(record, sel[..|sel| - 1]);
      match sel[|sel| - 1]
      case None => d
      case Some(s) => Put(d, PairColumn(s), ChoiceName(s.choice))
  }

  /**
    Merging writes the option name of the last selection of every pair
    column and leaves every other key of `record` as it was; the keys are
    those of `record` and the pair columns selected.
  */
  lemma {:induction false} MergedIsRecord(record: Dict<string>, sel: seq<Option<Selection>>, key: string)
    ensures Get(Merged(record, sel), key) ==
              if key in Record(sel, PairColumn) then Some(ChoiceName(Record(sel, PairColumn)[key])) else Get(record, key)
    ensures key in Keys(Merged(record, sel)) <==> key in Keys(record) || key in Record(sel, PairColumn)
  {
    if |sel| > 0 {
      var init := sel[..|sel| - 1];
      MergedIsRecord(record, init, key);
      match sel[|sel| - 1]
      case None =>
      case Some(s) =>
        PutFacts(Merged(record, init), PairColumn(s), ChoiceName(s.choice));
    }
  }

  lemma MergedSnoc(record: Dict<string>, sel: seq<Option<Selection>>, k: nat)
    requires k < |sel|
    ensures Merged(record, sel[..k + 1]) ==
              match sel[k] case None => Merged(record, sel[..k]) case Some(s) => Put(Merged(record, sel[..k]), PairColumn(s), ChoiceName(s.choice))
  {
    assert sel[..k + 1][..k] == sel[..k];
  }

  /**
    Part C of the row loop, with its `current_audio_block` variable: block
    headers set the block; a header holding the phrase, seen while a block
    is current, with a pair token and a cell of '1', writes the option.
  */
  method MergeSelections(record: Dict<string>, headers: seq<string>, row: Row) returns (r: Dict<string>)
    ensures r == Merged(record, Selections(headers, row, SelectPhrase))
  {
    ghost var sel := Selections(headers, row, SelectPhrase);
    r := record;
    var current: Option<string> := None;
    for k := 0 to |headers|
      invariant current == LastBlock(headers, k)
      invariant r == Merged(record, sel[..k])
    {
      MergedSnoc(record, sel, k);
      r, current := MergeColumn(r, current, headers, row, k);
    }
    assert sel[..|headers|] == sel;
  }

  /** One column of part C: what it writes, and the block current after it. */
  method MergeColumn(r: Dict<string>, current: Option<string>, headers: seq<string>, row: Row, k: nat)
    returns (r': Dict<string>, current': Option<string>)
    requires k < |headers| && current == LastBlock(headers, k)
    ensures current' == LastBlock(headers, k + 1)
    ensures r' == match SelectionAt(headers, row, SelectPhrase, k)
                  case None => r
                  case Some(s) => Put(r, PairColumn(s), ChoiceName(s.choice))
  {
    r', current' := r, current;
    var colStr := Strip(headers[k]);
    if IsBlockName(colStr) {
      current' := Some(colStr);
    } else if Contains(colStr, SelectPhrase) {
      if current.Some? {
        var token := SearchPair(colStr);
        if token.Some? {
          var cellValue := Strip(Cell(row, headers[k]));
          if cellValue == "1" {
            r' := Put(r, current.value + " - Pair " + token.value.0, ChoiceName(token.value.1));
          }
        }
      }
    }
  }

  /** Parts A and B: the translated metadata, then the demographic answers. */
  function BaseRow(headers: seq<string>, row: Row): Dict<string>
  {
    var demo := DemoCols(DemoKeywords, headers);
    CopiedColumns(Translated([], MetadataTable, headers, row, |MetadataTable|), demo, row, |demo|)
  }

  /** The output row of one respondent. */
  function TransferRow(headers: seq<string>, row: Row): Dict<string>
  {
    Merged(BaseRow(headers, row), Selections(headers, row, SelectPhrase))
  }

  /** The body of the row loop. */
  method TranslateRow(headers: seq<string>, demo: seq<string>, row: Row) returns (rowData: Dict<string>)
    requires demo == DemoCols(DemoKeywords, headers)
    ensures rowData == TransferRow(headers, row)
  {
    rowData := CopyMetadata([], MetadataTable, headers, row);
    rowData := CopyColumns(rowData, demo, row);
    rowData := MergeSelections(rowData, headers, row);
  }

  /** The output rows as a function of the input row. */
  function TransferFn(headers: seq<string>): Row -> Dict<string>
  {
    row => TransferRow(headers, row)
  }

  /** The output rows: one per input row after the first. */
  function TransferRows(headers: seq<string>, rows: seq<Row>): seq<Dict<string>>
  {
    PerDataRow(rows, TransferFn(headers))
  }

  /**
    `process_and_translate_survey_data` on a parsed export: row 0 is
    skipped; the result frame has one row per remaining row and the columns
    of all of them in order of first appearance.
  */
  method ProcessAndTranslateSurveyData(headers: seq<string>, rows: seq<Row>) returns (columns: seq<string>, records: seq<Dict<string>>)
    ensures records == TransferRows(headers, rows)
    ensures columns == FrameColumns(records)
  {
    var demo := FindDemoCols(DemoKeywords, headers);
    var data := DataRows(rows);
    records := [];
    for k := 0 to |data|
      invariant records == PerDataRow(rows, TransferFn(headers))[..k]
    {
      var rowData := TranslateRow(headers, demo, data[k]);
      PerDataRowStep(rows, TransferFn(headers), records, rowData, k);
      records := records + [rowData];
    }
    PerDataRowDone(rows, TransferFn(headers), records);
    columns := FrameColumns(records);
  }

  /**
    A pair column of the output holds the option of the last column that
    selects it; every column that selects it holds the full phrase, comes
    after a block header and has a cell of '1'.
  */
  lemma PairColumnLastWins(headers: seq<string>, row: Row, key: string)
    ensures var sel := Selections(headers, row, SelectPhrase);
            key in Record(sel, PairColumn) <==> exists k :: RecordsAt(sel, PairColumn, k, key)
    ensures var sel := Selections(headers, row, SelectPhrase);
            key in Record(sel, PairColumn) ==>
              exists k :: RecordsAt(sel, PairColumn, k, key)
                && Get(TransferRow(headers, row), key) == Some(ChoiceName(sel[k].value.choice))
                && (forall m :: k < m < |sel| ==> !RecordsAt(sel, PairColumn, m, key))
                && Contains(Strip(headers[k]), SelectPhrase) && Strip(Cell(row, headers[k])) == "1"
                && LastBlock(headers, k).Some?
    ensures var sel := Selections(headers, row, SelectPhrase);
            key !in Record(sel, PairColumn) ==> Get(TransferRow(headers, row), key) == Get(BaseRow(headers, row), key)
  {
    var sel := Selections(headers, row, SelectPhrase);
    RecordLastWins(sel, PairColumn, key);
    MergedIsRecord(BaseRow(headers, row), sel, key);
  }

  /**
    Every present metadata header's cell appears under its English name,
    which no demographic column shares; the keys before part C are the English names present and the demographic
    columns found, each once.
  */
  lemma BaseRowFacts(headers: seq<string>, row: Row)
    ensures Keys(BaseRow(headers, row)) ==
              AddKeys(PresentTargets(MetadataTable, headers, |MetadataTable|), DemoCols(DemoKeywords, headers), |DemoCols(DemoKeywords, headers)|)
    ensures Distinct(Keys(BaseRow(headers, row)))
    ensures forall c :: c in DemoCols(DemoKeywords, headers) ==> Get(BaseRow(headers, row), c) == Some(Cell(row, c))
    ensures forall i :: 0 <= i < |MetadataTable| && MetadataTable[i].0 in headers ==>
              Get(BaseRow(headers, row), MetadataTable[i].1) == Some(Cell(row, MetadataTable[i].0))
  {
    BaseRowKeys(headers, row);
    BaseRowDemo(headers, row);
    BaseRowMetadata(headers, row);
  }

  /** The keys of the base row: the English names present, then the new demographic columns. */
  lemma BaseRowKeys(headers: seq<string>, row: Row)
    ensures Keys(BaseRow(headers, row)) ==
              AddKeys(PresentTargets(MetadataTable, headers, |MetadataTable|), DemoCols(DemoKeywords, headers), |DemoCols(DemoKeywords, headers)|)
    ensures Distinct(Keys(BaseRow(headers, row)))
  {
    var demo := DemoCols(DemoKeywords, headers);
    var base := Translated([], MetadataTable, headers, row, |MetadataTable|);
    MetadataTargetsDistinct();
    TranslatedFacts(MetadataTable, headers, row, |MetadataTable|);
    PresentTargetsDistinct(MetadataTable, headers, |MetadataTable|);
    CopiedColumnsKeys(base, demo, row, |demo|);
    AddKeysFacts(Keys(base), demo, |demo|);
  }

  /** Every demographic column holds the respondent's own cell. */
  lemma BaseRowDemo(headers: seq<string>, row: Row)
    ensures forall c :: c in DemoCols(DemoKeywords, headers) ==> Get(BaseRow(headers, row), c) == Some(Cell(row, c))
  {
    var demo := DemoCols(DemoKeywords, headers);
    var base := Translated([], MetadataTable, headers, row, |MetadataTable|);
    CopiedColumnsValues(base, demo, row, |demo|);
    forall c | c in demo ensures Get(BaseRow(headers, row), c) == Some(Cell(row, c)) {
      var i :| 0 <= i < |demo| && demo[i] == c;
    }
  }

  /** Every English name of a present metadata header holds that header's cell; no demographic column overwrites it. */
  lemma BaseRowMetadata(headers: seq<string>, row: Row)
    ensures forall i :: 0 <= i < |MetadataTable| && MetadataTable[i].0 in headers ==>
              Get(BaseRow(headers, row), MetadataTable[i].1) == Some(Cell(row, MetadataTable[i].0))
  {
    var demo := DemoCols(DemoKeywords, headers);
    var base := Translated([], MetadataTable, headers, row, |MetadataTable|);
    MetadataTargetsDistinct();
    MetadataTargetsNotDemoCols(headers);
    TranslatedFacts(MetadataTable, headers, row, |MetadataTable|);
    CopiedColumnsValues(base, demo, row, |demo|);
    assert demo[..|demo|] == demo;
    forall i | 0 <= i < |MetadataTable| && MetadataTable[i].0 in headers
      ensures Get(BaseRow(headers, row), MetadataTable[i].1) == Some(Cell(row, MetadataTable[i].0))
    {
      var e := MetadataTable[i].1;
      assert Get(BaseRow(headers, row), e) == Get(base, e);
    }
  }

  /**
    The row transfer.py emits, after part C: every present Chinese metadata
    header's cell is under its English name, and no Chinese metadata header
    is itself a key of the row.
  */
  lemma TransferRowMetadata(headers: seq<string>, row: Row)
    ensures forall i :: 0 <= i < |MetadataTable| && MetadataTable[i].0 in headers ==>
              Get(TransferRow(headers, row), MetadataTable[i].1) == Some(Cell(row, MetadataTable[i].0))
    ensures forall i :: 0 <= i < |MetadataTable| ==> MetadataTable[i].0 !in Keys(TransferRow(headers, row))
  {
    BaseRowMetadata(headers, row);
    BaseRowKeys(headers, row);
    MetadataNamesNotA();
    SourceNamesNotTargets();
    SourceNamesNotDemoCols(headers);
    var demo := DemoCols(DemoKeywords, headers);
    var present := PresentTargets(MetadataTable, headers, |MetadataTable|);
    MetadataTargetsDistinct();
    TranslatedFacts(MetadataTable, headers, row, |MetadataTable|);
    AddKeysFacts(present, demo, |demo|);
    assert demo[..|demo|] == demo;
    forall i | 0 <= i < |MetadataTable| && MetadataTable[i].0 in headers
      ensures Get(TransferRow(headers, row), MetadataTable[i].1) == Some(Cell(row, MetadataTable[i].0))
    {
      var e := MetadataTable[i].1;
      PairColumnLastWins(headers, row, e);
      if e in Record(Selections(headers, row, SelectPhrase), PairColumn) {
        PairColumnsStartWithA(headers, row, e);
      }
    }
    forall i | 0 <= i < |MetadataTable| ensures MetadataTable[i].0 !in Keys(TransferRow(headers, row)) {
      var c := MetadataTable[i].0;
      MergedIsRecord(BaseRow(headers, row), Selections(headers, row, SelectPhrase), c);
      if c in Record(Selections(headers, row, SelectPhrase), PairColumn) {
        PairColumnsStartWithA(headers, row, c);
      }
    }
  }

  /** Every pair column written in part C begins with the 'A' of its "Audio" block name. */
  lemma PairColumnsStartWithA(headers: seq<string>, row: Row, key: string)
    requires key in Record(Selections(headers, row, SelectPhrase), PairColumn)
    ensures |key| > 0 && key[0] == 'A'
  {
    var sel := Selections(headers, row, SelectPhrase);
    RecordLastWins(sel, PairColumn, key);
    var k :| RecordsAt(sel, PairColumn, k, key);
    var b := sel[k].value.block;
    assert b == LastBlock(headers, k).value;
    var j :| j < k && BlockAt(headers, j, b) && NoBlockIn(headers, j + 1, k);
    assert StartsWith(b, "Audio");
    assert b[0] == b[..5][0] == 'A';
    assert key == b + " - Pair " + sel[k].value.pair;
  }

  /** No metadata header, Chinese or English, begins with 'A'. */
  lemma MetadataNamesNotA()
    ensures forall i :: 0 <= i < |MetadataTable| ==>
              |MetadataTable[i].0| > 0 && MetadataTable[i].0[0] != 'A' && |MetadataTable[i].1| > 0 && MetadataTable[i].1[0] != 'A'
  {
  }

  /** The Chinese headers, except "IP", begin outside ASCII; every English name begins inside it and is longer than "IP". */
  lemma MetadataNamesScripts()
    ensures forall i :: 0 <= i < |MetadataTable| && i != 5 ==> MetadataTable[i].0[0] >= '\U{80}'
    ensures forall j :: 0 <= j < |MetadataTable| ==> MetadataTable[j].1[0] < '\U{80}' && |MetadataTable[j].1| > 2
    ensures |MetadataTable[5].0| == 2
  {
  }

  /** No Chinese metadata header equals an English metadata name. */
  lemma SourceNamesNotTargets()
    ensures forall i, j :: 0 <= i < |MetadataTable| && 0 <= j < |MetadataTable| ==> MetadataTable[i].0 != MetadataTable[j].1
  {
    MetadataNamesScripts();
    MetadataNamesNotA();
  }

  /** No Chinese metadata header has a 't', which every demographic keyword has. */
  lemma SourceNamesLackT()
    ensures forall i :: 0 <= i < |MetadataTable| ==> 't' !in MetadataTable[i].0
    ensures forall j :: 0 <= j < |DemoKeywords| ==> 't' in DemoKeywords[j]
  {
  }

  /** No Chinese metadata header is taken for a demographic column. */
  lemma SourceNamesNotDemoCols(headers: seq<string>)
    ensures forall i :: 0 <= i < |MetadataTable| ==> MetadataTable[i].0 !in DemoCols(DemoKeywords, headers)
  {
    SourceNamesLackT();
    forall i, j | 0 <= i < |MetadataTable| && 0 <= j < |DemoKeywords|
      ensures !Contains(MetadataTable[i].0, DemoKeywords[j])
    {
      MissingCharNotContained(MetadataTable[i].0, DemoKeywords[j], 't');
    }
  }

  /** No English metadata name is among the demographic columns found, whatever the headers. */
  lemma MetadataTargetsNotDemoCols(headers: seq<string>)
    ensures forall i :: 0 <= i < |MetadataTable| ==> MetadataTable[i].1 !in DemoCols(DemoKeywords, headers)
  {
    MetadataTargetsNotDemo();
  }

  /** Characters of the keywords that no English metadata name has. */
  lemma MetadataTargetsLackChar(c: char)
    requires c == 'b' || c == 'W' || c == 'H'
    ensures forall i :: 0 <= i < |MetadataTable| ==> c !in MetadataTable[i].1
  {
  }

  /** Only `Longitude` has a `g`, and it has no `a`. */
  lemma MetadataTargetsLackG()
    ensures forall i :: 0 <= i < |MetadataTable| && i != 6 ==> 'g' !in MetadataTable[i].1
    ensures 'a' !in MetadataTable[6].1
  {
  }

  /** No English metadata name contains a demographic keyword, so none is taken for a demographic column. */
  lemma MetadataTargetsNotDemo()
    ensures forall i, j :: 0 <= i < |MetadataTable| && 0 <= j < |DemoKeywords| ==>
              !Contains(MetadataTable[i].1, DemoKeywords[j])
  {
    MetadataTargetsLackChar('b');
    MetadataTargetsLackChar('W');
    MetadataTargetsLackChar('H');
    MetadataTargetsLackG();
    forall i, j | 0 <= i < |MetadataTable| && 0 <= j < |DemoKeywords|
      ensures !Contains(MetadataTable[i].1, DemoKeywords[j])
    {
      var name, kw := MetadataTable[i].1, DemoKeywords[j];
      if j == 0 {
        MissingCharNotContained(name, kw, 'b');
      } else if j == 2 || j == 3 || j == 5 {
        MissingCharNotContained(name, kw, 'W');
      } else if j == 4 || j == 6 {
        MissingCharNotContained(name, kw, 'H');
      } else if i == 6 {
        MissingCharNotContained(name, kw, 'a');
      } else {
        MissingCharNotContained(name, kw, 'g');
      }
    }
  }

  /** No two English metadata names are equal. */
  lemma MetadataTargetsDistinct()
    ensures DistinctTargets(MetadataTable)
  {
    var t := MetadataTable;
    var keys := [21093, 21875, 21364, 17774, 21615, 18768, 19567, 19553, 20594, 17257, 17509, 20307, 17010, 21347];
    forall i | 0 <= i < |t| ensures NameKey(t[i].1) == keys[i] {
    }
    forall i, j | 0 <= i < j < |t| ensures t[i].1 != t[j].1 {
      assert keys[i] != keys[j];
    }
  }
}
