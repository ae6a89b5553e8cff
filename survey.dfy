/**
  Header scanning shared by the scorer (judge.py), the plotter (plot.py) and
  the translator (transfer.py): the survey export is a list of header strings
  and, per respondent, a row mapping each header to its cell text.

  - Audio-block headers: stripped header starts with "Audio" and has no "Pair".
  - Pair-selection headers: contain a fixed phrase and the token
    `Pair (\d+)-(First|Second|Equal)`; a cell of '1' (after strip) marks the
    respondent's choice.
  - Metadata and demographic columns are found by exact name or by substring.
*/
module Survey {
  import opened Wrappers
  import opened Strings
  import opened Records

  /** The option named by a pair-selection column. */
  datatype Choice = First | Second | Equal

  /** The option's name as it appears in the export. */
  function ChoiceName(c: Choice): (r: string)
    ensures r in {"First", "Second", "Equal"}
  {
    match c
    case First => "First"
    case Second => "Second"
    case Equal => "Equal"
  }

  /** One respondent's row: header -> cell text. */
  type Row = map<string, string>

  /** `str(row[col])`: a cell pandas left empty reads as NaN, whose text is "nan". */
  function Cell(row: Row, col: string): string
  {
    if col in row then row[col] else "nan"
  }

  /** `df.iloc[1:]`: every row after the first. */
  function DataRows(rows: seq<Row>): (d: seq<Row>)
    ensures |d| == if |rows| == 0 then 0 else |rows| - 1
    ensures forall i :: 0 <= i < |d| ==> d[i] == rows[i + 1]
  {
    if |rows| == 0 then [] else rows[1..]
  }

  /** `f` of every row after the first: what a loop over `df.iloc[1:]` collects. */
  function PerDataRow<T>(rows: seq<Row>, f: Row -> T): (r: seq<T>)
    ensures |r| == if |rows| == 0 then 0 else |rows| - 1
    ensures forall i :: 0 <= i < |r| ==> r[i] == f(rows[i + 1])
  {
    if |rows| == 0 then [] else seq(|rows| - 1, i requires 0 <= i < |rows| - 1 => f(rows[i + 1]))
  }

  /** One more data row collected. */
  lemma PerDataRowStep<T>(rows: seq<Row>, f: Row -> T, done: seq<T>, x: T, k: nat)
    requires k < |DataRows(rows)| && done == PerDataRow(rows, f)[..k] && x == f(DataRows(rows)[k])
    ensures done + [x] == PerDataRow(rows, f)[..k + 1]
  {
  }

  /** After the last data row everything is collected. */
  lemma PerDataRowDone<T>(rows: seq<Row>, f: Row -> T, done: seq<T>)
    requires done == PerDataRow(rows, f)[..|DataRows(rows)|]
    ensures done == PerDataRow(rows, f)
  {
  }

  /** The "Audio ..." block test, on an already stripped header. */
  predicate IsBlockName(c: string)
  {
    StartsWith(c, "Audio") && !Contains(c, "Pair")
  }

  /** A header that opens an audio block (after stripping). */
  predicate IsBlockHeader(h: string)
  {
    IsBlockName(Strip(h))
  }

  // ---------------------------------------------------------------------
  // Audio-block discovery
  // ---------------------------------------------------------------------

  /** The stripped block headers, in header order, repeats included. */
  function BlockNames(headers: seq<string>): seq<string>
  {
    if |headers| == 0 then []
    else
      var h := headers[|headers| - 1];
      BlockNames(headers[..|headers| - 1]) + (if IsBlockHeader(h) then [Strip(h)] else [])
  }

  /** Header `k` opens the block named `x`. */
  predicate BlockAt(headers: seq<string>, k: int, x: string)
  {
    0 <= k < |headers| && IsBlockHeader(headers[k]) && Strip(headers[k]) == x
  }

  /** The names collected are exactly those of the block headers. */
  lemma {:induction false} BlockNamesMembers(headers: seq<string>)
    ensures forall x :: x in BlockNames(headers) <==> exists k :: BlockAt(headers, k, x)
  {
    if |headers| > 0 {
      var init, h := headers[..|headers| - 1], headers[|headers| - 1];
      BlockNamesMembers(init);
      forall x ensures x in BlockNames(headers) <==> exists k :: BlockAt(headers, k, x) {
        if x in BlockNames(init) {
          var k :| BlockAt(init, k, x);
          assert BlockAt(headers, k, x);
        } else if x in BlockNames(headers) {
          assert BlockAt(headers, |init|, x);
        }
        if exists k :: BlockAt(headers, k, x) {
          var k :| BlockAt(headers, k, x);
          if k < |init| {
            assert BlockAt(init, k, x);
          }
        }
      }
    }
  }

  /**
    The loop over `df.columns` that collects `audio_blocks` with a `seen`
    set: the stripped block headers with repeats dropped.
  */
  method DiscoverBlocks(headers: seq<string>) returns (blocks: seq<string>)
    ensures blocks == Dedup(BlockNames(headers))
  {
    blocks := [];
    var seen: set<string> := {};
    for i := 0 to |headers|
      invariant blocks == Dedup(BlockNames(headers[..i]))
      invariant forall x :: x in seen <==> x in blocks
    {
      DiscoverStep(headers, i);
      var c := Strip(headers[i]);
      if IsBlockName(c) && c !in seen {
        blocks := blocks + [c];
        seen := seen + {c};
      }
    }
    assert headers[..|headers|] == headers;
  }

  /** One more header adds its stripped name when it opens a block not yet seen, and nothing otherwise. */
  lemma DiscoverStep(headers: seq<string>, i: nat)
    requires i < |headers|
    ensures Dedup(BlockNames(headers[..i + 1]))
         == if IsBlockHeader(headers[i]) && Strip(headers[i]) !in Dedup(BlockNames(headers[..i]))
            then Dedup(BlockNames(headers[..i])) + [Strip(headers[i])]
            else Dedup(BlockNames(headers[..i]))
  {
    BlockNamesStep(headers, i);
    if IsBlockHeader(headers[i]) {
      DedupSnoc(BlockNames(headers[..i]), Strip(headers[i]));
    } else {
      assert BlockNames(headers[..i]) + [] == BlockNames(headers[..i]);
    }
  }

  /**
    The blocks found are the stripped block headers, each once, in order of
    first appearance.
  */
  lemma DiscoveredBlocks(headers: seq<string>)
    ensures Distinct(Dedup(BlockNames(headers)))
    ensures forall x :: x in Dedup(BlockNames(headers)) <==> x in BlockNames(headers)
    ensures forall x :: x in Dedup(BlockNames(headers)) <==> exists k :: BlockAt(headers, k, x)
    ensures forall i, j :: 0 <= i < j < |Dedup(BlockNames(headers))| ==>
              FirstIndex(BlockNames(headers), Dedup(BlockNames(headers))[i])
              < FirstIndex(BlockNames(headers), Dedup(BlockNames(headers))[j])
  {
    DedupFacts(BlockNames(headers));
    BlockNamesMembers(headers);
  }

  lemma BlockNamesStep(headers: seq<string>, i: nat)
    requires i < |headers|
    ensures BlockNames(headers[..i + 1]) ==
              BlockNames(headers[..i]) + (if IsBlockHeader(headers[i]) then [Strip(headers[i])] else [])
  {
    assert headers[..i + 1][..i] == headers[..i];
  }

  // ---------------------------------------------------------------------
  // Demographic columns: first header containing each keyword
  // ---------------------------------------------------------------------

  /** The index of the first header containing `keyword`, if any. */
  function FirstContaining(headers: seq<string>, keyword: string, from: nat): (r: Option<nat>)
    requires from <= |headers|
    ensures r.Some? ==> from <= r.value < |headers| && Contains(headers[r.value], keyword)
                        && forall j :: from <= j < r.value ==> !Contains(headers[j], keyword)
    ensures r.None? ==> forall j :: from <= j < |headers| ==> !Contains(headers[j], keyword)
    decreases |headers| - from
  {
    if from == |headers| then None
    else if Contains(headers[from], keyword) then Some(from)
    else FirstContaining(headers, keyword, from + 1)
  }

  /** `found_demo_cols` for the first `n` keywords: at most one header per keyword. */
  function DemoCols(keywords: seq<string>, headers: seq<string>): (r: seq<string>)
    ensures |r| <= |keywords|
    ensures forall x :: x in r ==> x in headers && exists i :: 0 <= i < |keywords| && Contains(x, keywords[i])
  {
    if |keywords| == 0 then []
    else
      DemoCols(keywords[..|keywords| - 1], headers)
      + match FirstContaining(headers, keywords[|keywords| - 1], 0)
        case None => []
        case Some(j) => [headers[j]]
  }

  /**
    The nested loop with `break`: for each keyword, the first header that
    contains it, if there is one.
  */
  method FindDemoCols(keywords: seq<string>, headers: seq<string>) returns (found: seq<string>)
    ensures found == DemoCols(keywords, headers)
    ensures |found| <= |keywords|
    ensures forall c :: c in found ==> c in headers
  {
    found := [];
    for i := 0 to |keywords|
      invariant found == DemoCols(keywords[..i], headers)
      invariant forall c :: c in found ==> c in headers
    {
      assert keywords[..i + 1][..i] == keywords[..i];
      var j := 0;
      while j < |headers|
        invariant 0 <= j <= |headers|
        invariant FirstContaining(headers, keywords[i], 0) == FirstContaining(headers, keywords[i], j)
      {
        if Contains(headers[j], keywords[i]) {
          found := found + [headers[j]];
          break;
        }
        j := j + 1;
      }
    }
    assert keywords[..|keywords|] == keywords;
  }

  /** Each keyword contributes at most its first matching header, in keyword order. */
  lemma {:induction false} DemoColsFirstMatch(keywords: seq<string>, headers: seq<string>, i: nat)
    requires i < |keywords|
    ensures var before := |DemoCols(keywords[..i], headers)|;
            match FirstContaining(headers, keywords[i], 0)
            case None => |DemoCols(keywords[..i + 1], headers)| == before
            case Some(j) => |DemoCols(keywords[..i + 1], headers)| == before + 1
                            && DemoCols(keywords[..i + 1], headers)[before] == headers[j]
                            && Contains(headers[j], keywords[i])
                            && forall m :: 0 <= m < j ==> !Contains(headers[m], keywords[i])
  {
    assert keywords[..i + 1][..i] == keywords[..i];
  }

  // ---------------------------------------------------------------------
  // Metadata columns copied under a new name
  // ---------------------------------------------------------------------

  /**
    `record` after the first `n` entries of `table` (source header, output
    name) were examined: each source header present among `headers` has its
    cell written under its output name.
  */
  function Translated(record: Dict<string>, table: seq<(string, string)>, headers: seq<string>, row: Row, n: nat): Dict<string>
    requires n <= |table|
  {
    if n == 0 then record
    else
      var d := Translated(record, table, headers, row, n - 1);
      if table[n - 1].0 in headers then Put(d, table[n - 1].1, Cell(row, table[n - 1].0)) else d
  }

  /** A number made of a name's first two characters; names with different keys differ. */
  function NameKey(s: string): int
  {
    if |s| < 2 then -1 else s[0] as int * 256 + s[1] as int
  }

  /** The output names are pairwise distinct. */
  predicate DistinctTargets(table: seq<(string, string)>)
  {
    forall i, j :: 0 <= i < j < |table| ==> table[i].1 != table[j].1
  }

  /** The output names of the present source headers among the first `n` entries, in table order. */
  function PresentTargets(table: seq<(string, string)>, headers: seq<string>, n: nat): seq<string>
    requires n <= |table|
  {
    if n == 0 then []
    else PresentTargets(table, headers, n - 1) + (if table[n - 1].0 in headers then [table[n - 1].1] else [])
  }

  /**
    Starting from an empty record, with distinct output names: the keys are
    the output names of the present source headers, in table order, and each
    holds its source header's cell.
  */
  lemma {:induction false} TranslatedFacts(table: seq<(string, string)>, headers: seq<string>, row: Row, n: nat)
    requires n <= |table| && DistinctTargets(table)
    ensures Keys(Translated([], table, headers, row, n)) == PresentTargets(table, headers, n)
    ensures forall i :: 0 <= i < n && table[i].0 in headers ==>
              Get(Translated([], table, headers, row, n), table[i].1) == Some(Cell(row, table[i].0))
    ensures forall e :: e in PresentTargets(table, headers, n) <==>
              exists i :: 0 <= i < n && table[i].0 in headers && table[i].1 == e
  {
    if n > 0 {
      TranslatedFacts(table, headers, row, n - 1);
      var d := Translated([], table, headers, row, n - 1);
      if table[n - 1].0 in headers {
        PutFacts(d, table[n - 1].1, Cell(row, table[n - 1].0));
      }
    }
  }

  /** With distinct output names, no name is written twice. */
  lemma {:induction false} PresentTargetsDistinct(table: seq<(string, string)>, headers: seq<string>, n: nat)
    requires n <= |table| && DistinctTargets(table)
    ensures Distinct(PresentTargets(table, headers, n))
  {
    if n > 0 {
      PresentTargetsDistinct(table, headers, n - 1);
      TranslatedFacts(table, headers, map[], n - 1);
      var prev, x := PresentTargets(table, headers, n - 1), table[n - 1].1;
      if table[n - 1].0 in headers {
        forall e | e in prev ensures e != x {
          var i :| 0 <= i < n - 1 && table[i].0 in headers && table[i].1 == e;
        }
        forall i, j | 0 <= i < j < |prev| + 1 ensures (prev + [x])[i] != (prev + [x])[j] {
          if j == |prev| {
            assert (prev + [x])[i] in prev;
          }
        }
      }
    }
  }

  /** `for cn in translation: if cn in df.columns: record[english] = row[cn]`. */
  method CopyMetadata(record: Dict<string>, table: seq<(string, string)>, headers: seq<string>, row: Row) returns (r: Dict<string>)
    ensures r == Translated(record, table, headers, row, |table|)
  {
    r := record;
    for i := 0 to |table|
      invariant r == Translated(record, table, headers, row, i)
    {
      if table[i].0 in headers {
        r := Put(r, table[i].1, Cell(row, table[i].0));
      }
    }
  }

  /** `record` after `for cn in cols: record[cn] = row[cn]` over the first `n` columns. */
  function CopiedColumns(record: Dict<string>, cols: seq<string>, row: Row, n: nat): Dict<string>
    requires n <= |cols|
  {
    if n == 0 then record else Put(CopiedColumns(record, cols, row, n - 1), cols[n - 1], Cell(row, cols[n - 1]))
  }

  /** Copying columns sets each of them to its own cell and leaves every other key as it was. */
  lemma {:induction false} CopiedColumnsValues(record: Dict<string>, cols: seq<string>, row: Row, n: nat)
    requires n <= |cols|
    ensures forall i :: 0 <= i < n ==> Get(CopiedColumns(record, cols, row, n), cols[i]) == Some(Cell(row, cols[i]))
    ensures forall e :: e !in cols[..n] ==> Get(CopiedColumns(record, cols, row, n), e) == Get(record, e)
  {
    if n > 0 {
      var prev := CopiedColumns(record, cols, row, n - 1);
      var k := cols[n - 1];
      var next := Put(prev, k, Cell(row, k));
      assert CopiedColumns(record, cols, row, n) == next;
      CopiedColumnsValues(record, cols, row, n - 1);
      forall i | 0 <= i < n ensures Get(next, cols[i]) == Some(Cell(row, cols[i])) {
        PutGet(prev, k, Cell(row, k), cols[i]);
      }
      assert cols[..n] == cols[..n - 1] + [k];
      forall e | e !in cols[..n] ensures Get(next, e) == Get(record, e) {
        PutGet(prev, k, Cell(row, k), e);
        assert e != k && e !in cols[..n - 1];
      }
    }
  }

  /** Copying columns adds keys only from `cols` and keeps the keys distinct. */
  lemma CopiedColumnsKeySet(record: Dict<string>, cols: seq<string>, row: Row, n: nat)
    requires n <= |cols|
    ensures forall e :: e in Keys(CopiedColumns(record, cols, row, n)) <==> e in Keys(record) || e in cols[..n]
    ensures Distinct(Keys(record)) ==> Distinct(Keys(CopiedColumns(record, cols, row, n)))
  {
    CopiedColumnsKeys(record, cols, row, n);
    AddKeysFacts(Keys(record), cols, n);
  }

  /**
    Copying columns sets each of them to its own cell, leaves every other key
    as it was, and adds keys only from `cols`.
  */
  lemma CopiedColumnsFacts(record: Dict<string>, cols: seq<string>, row: Row, n: nat)
    requires n <= |cols|
    ensures forall i :: 0 <= i < n ==> Get(CopiedColumns(record, cols, row, n), cols[i]) == Some(Cell(row, cols[i]))
    ensures forall e :: e !in cols[..n] ==> Get(CopiedColumns(record, cols, row, n), e) == Get(record, e)
    ensures forall e :: e in Keys(CopiedColumns(record, cols, row, n)) <==> e in Keys(record) || e in cols[..n]
    ensures Distinct(Keys(record)) ==> Distinct(Keys(CopiedColumns(record, cols, row, n)))
  {
    CopiedColumnsValues(record, cols, row, n);
    CopiedColumnsKeySet(record, cols, row, n);
  }

  /** The keys `ks` become when `cols[..n]` are written one after another. */
  function AddKeys(ks: seq<string>, cols: seq<string>, n: nat): seq<string>
    requires n <= |cols|
  {
    if n == 0 then ks
    else
      var prev := AddKeys(ks, cols, n - 1);
      if cols[n - 1] in prev then prev else prev + [cols[n - 1]]
  }

  /** The keys after copying depend on the keys before, not on the row. */
  lemma {:induction false} CopiedColumnsKeys(record: Dict<string>, cols: seq<string>, row: Row, n: nat)
    requires n <= |cols|
    ensures Keys(CopiedColumns(record, cols, row, n)) == AddKeys(Keys(record), cols, n)
  {
    if n > 0 {
      var prev := CopiedColumns(record, cols, row, n - 1);
      var k := cols[n - 1];
      assert CopiedColumns(record, cols, row, n) == Put(prev, k, Cell(row, k));
      CopiedColumnsKeys(record, cols, row, n - 1);
      PutKeys(prev, k, Cell(row, k));
      var ks := AddKeys(Keys(record), cols, n - 1);
      assert AddKeys(Keys(record), cols, n) == if k in ks then ks else ks + [k];
    }
  }

  /** Adding keys adds exactly the new ones, and keeps distinct keys distinct. */
  lemma {:induction false} AddKeysFacts(ks: seq<string>, cols: seq<string>, n: nat)
    requires n <= |cols|
    ensures forall e :: e in AddKeys(ks, cols, n) <==> e in ks || e in cols[..n]
    ensures Distinct(ks) ==> Distinct(AddKeys(ks, cols, n))
  {
    if n > 0 {
      var prev := AddKeys(ks, cols, n - 1);
      var k := cols[n - 1];
      AddKeysFacts(ks, cols, n - 1);
      assert cols[..n] == cols[..n - 1] + [k];
      if k !in prev && Distinct(prev) {
        var r := prev + [k];
        forall i, j | 0 <= i < j < |r| ensures r[i] != r[j] {
          if j == |prev| {
            assert r[i] == prev[i];
          } else {
            assert r[i] == prev[i] && r[j] == prev[j];
          }
        }
      }
    }
  }

  /** The demographic loop of the row processing. */
  method CopyColumns(record: Dict<string>, cols: seq<string>, row: Row) returns (r: Dict<string>)
    ensures r == CopiedColumns(record, cols, row, |cols|)
  {
    r := record;
    for i := 0 to |cols|
      invariant r == CopiedColumns(record, cols, row, i)
    {
      r := Put(r, cols[i], Cell(row, cols[i]));
    }
  }

  // ---------------------------------------------------------------------
  // The pair token `Pair (\d+)-(First|Second|Equal)`
  // ---------------------------------------------------------------------

  /** A string of decimal digits: what the `(\d+)` group captures. */
  type Digits = s: string | AllDigits(s) witness ""

  /**
    The token matched at the very start of `t`: "Pair ", a digit run, "-",
    then one of the three option names.
  */
  function PairTokenPrefix(t: string): Option<(Digits, Choice)>
  {
    if !StartsWith(t, "Pair ") then None else AfterPair(t[5..])
  }

  /**
    The rest of the token after "Pair ". The digit run is the maximal one: a
    shorter run would leave a digit where the pattern needs "-", so
    backtracking never finds another match at the same offset.
  */
  function AfterPair(u: string): Option<(Digits, Choice)>
  {
    var d := LeadingDigits(u);
    if |d| == 0 || |d| >= |u| || u[|d|] != '-' then None
    else match ChoicePrefix(u[|d| + 1..])
      case None => None
      case Some(c) => Some((d, c))
  }

  /** The alternation `(First|Second|Equal)` at the start of `u`. */
  function ChoicePrefix(u: string): Option<Choice>
  {
    if StartsWith(u, "First") then Some(First)
    else if StartsWith(u, "Second") then Some(Second)
    else if StartsWith(u, "Equal") then Some(Equal)
    else None
  }

  /** The three names are told apart by their first letter. */
  lemma ChoicePrefixOf(c: Choice, post: string)
    ensures ChoicePrefix(ChoiceName(c) + post) == Some(c)
  {
    var u := ChoiceName(c) + post;
    assert u[..|ChoiceName(c)|] == ChoiceName(c);
    match c
    case First =>
    case Second =>
      assert u[..5][0] == 'S';
    case Equal =>
      assert u[..5][0] == 'E';
      if |u| >= 6 { assert u[..6][0] == 'E'; }
  }

  /** The token matched at offset `i` of `s`. */
  function PairTokenAt(s: string, i: nat): Option<(Digits, Choice)>
  {
    if i <= |s| then PairTokenPrefix(s[i..]) else None
  }

  /** `re.search` from offset `from`: the match at the leftmost offset where one exists. */
  function SearchPairFrom(s: string, from: nat): (r: Option<(Digits, Choice)>)
    ensures r.Some? ==> exists k :: from <= k <= |s| && PairTokenAt(s, k) == r
                                    && forall j :: from <= j < k ==> PairTokenAt(s, j).None?
    ensures r.None? ==> forall k :: from <= k <= |s| ==> PairTokenAt(s, k).None?
    decreases |s| + 1 - from
  {
    if from > |s| then None
    else if PairTokenAt(s, from).Some? then PairTokenAt(s, from)
    else SearchPairFrom(s, from + 1)
  }

  /** `re.search(r'Pair (\d+)-(First|Second|Equal)', s)`. */
  function SearchPair(s: string): Option<(Digits, Choice)>
  {
    SearchPairFrom(s, 0)
  }

  lemma AfterPairOf(d: Digits, c: Choice, post: string)
    requires |d| > 0
    requires |post| == 0 || !IsDigit(post[0])
    ensures AfterPair(d + "-" + ChoiceName(c) + post) == Some((d, c))
  {
    var w := ChoiceName(c) + post;
    var u := d + "-" + ChoiceName(c) + post;
    assert u == d + ("-" + w);
    LeadingDigitsOf(d, "-" + w);
    DashSplit(d, w);
    ChoicePrefixOf(c, post);
  }

  lemma DashSplit(d: string, w: string)
    ensures (d + ("-" + w))[|d|] == '-'
    ensures (d + ("-" + w))[|d| + 1..] == w
  {
    var u := d + ("-" + w);
    assert u[|d| + 1..] == w;
  }

  /** A well-formed token, followed by anything but a digit, is read back exactly. */
  lemma PairTokenOf(d: Digits, c: Choice, post: string)
    requires |d| > 0
    requires |post| == 0 || !IsDigit(post[0])
    ensures PairTokenPrefix("Pair " + d + "-" + ChoiceName(c) + post) == Some((d, c))
  {
    var t := "Pair " + d + "-" + ChoiceName(c) + post;
    assert t[..5] == "Pair ";
    assert t[5..] == d + "-" + ChoiceName(c) + post;
    AfterPairOf(d, c, post);
  }

  /** The search returns the token at the leftmost offset that holds one. */
  lemma SearchPairLeftmost(s: string, k: nat)
    requires PairTokenAt(s, k).Some?
    requires forall j :: 0 <= j < k ==> PairTokenAt(s, j).None?
    ensures SearchPair(s) == PairTokenAt(s, k)
  {
  }

  /** The token is found wherever it stands, after any prefix free of tokens. */
  lemma SearchPairFinds(pre: string, d: Digits, c: Choice, post: string)
    requires |d| > 0
    requires |post| == 0 || !IsDigit(post[0])
    requires forall k :: 0 <= k < |pre| ==> PairTokenAt(pre + "Pair " + d + "-" + ChoiceName(c) + post, k).None?
    ensures SearchPair(pre + "Pair " + d + "-" + ChoiceName(c) + post) == Some((d, c))
  {
    var t := "Pair " + d + "-" + ChoiceName(c) + post;
    var s := pre + t;
    assert s == pre + "Pair " + d + "-" + ChoiceName(c) + post;
    assert s[|pre|..] == t;
    PairTokenOf(d, c, post);
    SearchPairLeftmost(s, |pre|);
  }

  // ---------------------------------------------------------------------
  // Block tracking and recorded selections
  // ---------------------------------------------------------------------

  /**
    `current_block` just before column `k` is examined: the stripped name of
    the last block header among the first `k` headers, or None if there is none.
  */
  function LastBlock(headers: seq<string>, k: nat): (r: Option<string>)
    requires k <= |headers|
    ensures r.None? <==> NoBlockIn(headers, 0, k)
    ensures r.Some? ==> exists j :: j < k && BlockAt(headers, j, r.value) && NoBlockIn(headers, j + 1, k)
  {
    if k == 0 then None
    else if IsBlockHeader(headers[k - 1]) then
      assert BlockAt(headers, k - 1, Strip(headers[k - 1]));
      Some(Strip(headers[k - 1]))
    else
      var r := LastBlock(headers, k - 1);
      assert NoBlockIn(headers, k - 1, k);
      r
  }

  /** No header in `[lo, hi)` opens a block. */
  predicate NoBlockIn(headers: seq<string>, lo: int, hi: int)
  {
    forall m :: lo <= m < hi && 0 <= m < |headers| ==> !IsBlockHeader(headers[m])
  }

  /** A recorded choice: the block it belongs to, the pair's digits and the option. */
  datatype Selection = Selection(block: string, pair: Digits, choice: Choice)

  /**
    What column `k` records for this row: nothing if the header opens a block,
    lacks `phrase`, comes before every block header, has no pair token, or its
    cell (stripped) is not "1".
  */
  function SelectionAt(headers: seq<string>, row: Row, phrase: string, k: nat): (r: Option<Selection>)
    requires k < |headers|
    ensures r.Some? <==>
              var c := Strip(headers[k]);
              !IsBlockName(c) && Contains(c, phrase) && LastBlock(headers, k).Some? && SearchPair(c).Some?
              && Strip(Cell(row, headers[k])) == "1"
    ensures r.Some? ==>
              r.value.block == LastBlock(headers, k).value && SearchPair(Strip(headers[k])) == Some((r.value.pair, r.value.choice))
  {
    var c := Strip(headers[k]);
    if IsBlockName(c) || !Contains(c, phrase) then None
    else match LastBlock(headers, k)
      case None => None
      case Some(b) =>
        match SearchPair(c)
        case None => None
        case Some(token) =>
          if Strip(Cell(row, headers[k])) == "1" then Some(Selection(b, token.0, token.1)) else None
  }

  /** A column before any block header records nothing. */
  lemma NothingBeforeFirstBlock(headers: seq<string>, row: Row, phrase: string, k: nat)
    requires k < |headers|
    requires NoBlockIn(headers, 0, k)
    ensures SelectionAt(headers, row, phrase, k).None?
  {
  }

  /** What each column records for this row, column by column. */
  function Selections(headers: seq<string>, row: Row, phrase: string): (r: seq<Option<Selection>>)
    ensures |r| == |headers|
    ensures forall k :: 0 <= k < |headers| ==> r[k] == SelectionAt(headers, row, phrase, k)
  {
    seq(|headers|, k requires 0 <= k < |headers| => SelectionAt(headers, row, phrase, k))
  }

  /**
    Writing `key := choice` for every selection in `sel`, in order, into an
    initially empty dictionary.
  */
  function Record<K(==)>(sel: seq<Option<Selection>>, keyOf: Selection -> K): map<K, Choice>
  {
    if |sel| == 0 then map[]
    else
      var m := Record(sel[..|sel| - 1], keyOf);
      match sel[|sel| - 1]
      case None => m
      case Some(s) => m[keyOf(s) := s.choice]
  }

  /** Entry `k` of `sel` records a selection under `key`. */
  predicate RecordsAt<K(==)>(sel: seq<Option<Selection>>, keyOf: Selection -> K, k: int, key: K)
  {
    0 <= k < |sel| && sel[k].Some? && keyOf(sel[k].value) == key
  }

  /**
    A key is present exactly when some entry records under it, and then it
    holds the choice of the LAST such entry: a later marked option overwrites
    an earlier one.
  */
  lemma {:induction false} RecordLastWins<K>(sel: seq<Option<Selection>>, keyOf: Selection -> K, key: K)
    ensures key in Record(sel, keyOf) <==> exists k :: RecordsAt(sel, keyOf, k, key)
    ensures key in Record(sel, keyOf) ==>
              exists k :: RecordsAt(sel, keyOf, k, key)
                && Record(sel, keyOf)[key] == sel[k].value.choice
                && forall m :: k < m < |sel| ==> !RecordsAt(sel, keyOf, m, key)
  {
    if |sel| > 0 {
      var init := sel[..|sel| - 1];
      RecordLastWins(init, keyOf, key);
      forall k | RecordsAt(init, keyOf, k, key) ensures RecordsAt(sel, keyOf, k, key) {
        assert sel[k] == init[k];
      }
      forall k | RecordsAt(sel, keyOf, k, key) && k < |init| ensures RecordsAt(init, keyOf, k, key) {
        assert sel[k] == init[k];
      }
      if RecordsAt(sel, keyOf, |init|, key) {
        assert Record(sel, keyOf)[key] == sel[|init|].value.choice;
      } else if key in Record(init, keyOf) {
        var k :| RecordsAt(init, keyOf, k, key)
                 && Record(init, keyOf)[key] == init[k].value.choice
                 && forall m :: k < m < |init| ==> !RecordsAt(init, keyOf, m, key);
        assert RecordsAt(sel, keyOf, k, key);
        assert Record(sel, keyOf)[key] == sel[k].value.choice;
      }
    }
  }

  /** `[c for c in cols if tag in c]`: the columns whose name contains the tag, in order. */
  function Tagged(cols: seq<string>, tag: string): (r: seq<string>)
    ensures forall x :: x in r <==> x in cols && Contains(x, tag)
  {
    Filter(cols, c => Contains(c, tag))
  }
}
