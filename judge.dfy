/**
  The scorer of judge.py: for every respondent, copy the metadata and
  demographic answers, read the marked option of every pair, compare the
  first 30 audio blocks positionally with the answer key, and write the
  error count of each block under its "{delta} ({centre}Hz)" column; finally
  put the columns in the order metadata, 200 Hz, 1000 Hz, 5000 Hz.
*/
module Judge {
  import opened Wrappers
  import opened Strings
  import opened Records
  import opened Sorting
  import opened AnswerKey
  import opened Survey

  /** Chinese export header -> English metadata column. */
  const MetadataTable: seq<(string, string)> :=
    [("作答ID", "Response ID"), ("用户ID", "User ID"),
     ("开始时间", "Start Time"), ("结束时间", "End Time"),
     ("作答总时长(秒)", "Total Duration (s)"), ("IP", "IP Address"),
     ("经度", "Longitude"), ("纬度", "Latitude"),
     ("省份", "Province"), ("城市", "City"),
     ("设备类型", "Device Type"), ("操作系统类型", "OS Type"),
     ("浏览器类型", "Browser Type"), ("屏幕分辨率", "Screen Resolution")]

  /** Substrings that identify the demographic questions, in output order. */
  const DemoKeywords: seq<string> :=
    ["I hereby confirm", "age group", "What is your first language?", "languages",
     "hobby or profession", "What is it", "How long"]

  /** The phrase a pair-selection header must contain. */
  const SelectPhrase: string := "Please select"

  /** A cell of the output: copied text, or an error count. */
  datatype Value = Text(text: string) | Count(n: int)

  /** Text entries as `Value`s, same keys, same order. */
  function Lift(d: Dict<string>): (r: Dict<Value>)
    ensures Keys(r) == Keys(d)
    ensures forall i :: 0 <= i < |d| ==> r[i] == (d[i].0, Text(d[i].1))
  {
    seq(|d|, i requires 0 <= i < |d| => (d[i].0, Text(d[i].1)))
  }

  /** Looking a key up in the lifted dictionary gives the lifted value. */
  lemma {:induction false} LiftGet(d: Dict<string>, k: string)
    ensures Get(Lift(d), k) == match Get(d, k) case None => None case Some(t) => Some(Text(t))
  {
    if |d| > 0 {
      assert Lift(d)[1..] == Lift(d[1..]);
      LiftGet(d[1..], k);
    }
  }

  // ---------------------------------------------------------------------
  // Responses
  // ---------------------------------------------------------------------

  /** `user_responses` is keyed by (block, int(pair digits)). */
  type Responses = map<(string, nat), Choice>

  /** The response key of a selection. */
  function JudgeKey(s: Selection): (string, nat)
  {
    (s.block, DigitsToNat(s.pair))
  }

  /** The responses the scoring reads: every marked option, the last one winning. */
  function ResponsesOf(headers: seq<string>, row: Row): Responses
  {
    Record(Selections(headers, row, SelectPhrase), JudgeKey)
  }

  /** One step of the fold behind `Record`. */
  lemma RecordSnoc<K>(sel: seq<Option<Selection>>, keyOf: Selection -> K, k: nat)
    requires k < |sel|
    ensures Record(sel[..k + 1], keyOf) ==
              match sel[k] case None => Record(sel[..k], keyOf) case Some(s) => Record(sel[..k], keyOf)[keyOf(s) := s.choice]
  {
    assert sel[..k + 1][..k] == sel[..k];
  }

  /**
    The column loop of part B with its `current_block` variable: a block
    header sets the current block; a header holding the phrase, seen while a
    block is current, with a pair token and a cell of '1', records the option.
  */
  method ExtractResponses(headers: seq<string>, row: Row, phrase: string) returns (resp: map<(string, nat), Choice>)
    ensures resp == Record(Selections(headers, row, phrase), JudgeKey)
  {
    ghost var sel := Selections(headers, row, phrase);
    resp := map[];
    var current: Option<string> := None;
    for k := 0 to |headers|
      invariant current == LastBlock(headers, k)
      invariant resp == Record(sel[..k], JudgeKey)
    {
      RecordSnoc(sel, JudgeKey, k);
      resp, current := ExtractColumn(resp, current, headers, row, phrase, k);
    }
    assert sel[..|headers|] == sel;
  }

  /** One column of part B: what it records, and the block current after it. */
  method ExtractColumn(resp: Responses, current: Option<string>, headers: seq<string>, row: Row, phrase: string, k: nat)
    returns (resp': Responses, current': Option<string>)
    requires k < |headers| && current == LastBlock(headers, k)
    ensures current' == LastBlock(headers, k + 1)
    ensures resp' == match SelectionAt(headers, row, phrase, k)
                     case None => resp
                     case Some(s) => resp[JudgeKey(s) := s.choice]
  {
    resp', current' := resp, current;
    var c := Strip(headers[k]);
    if IsBlockName(c) {
      current' := Some(c);
      assert SelectionAt(headers, row, phrase, k).None?;
    } else if Contains(c, phrase) && current.Some? {
      var token := SearchPair(c);
      if token.Some? {
        if Strip(Cell(row, headers[k])) == "1" {
          ghost var sel := Selection(current.value, token.value.0, token.value.1);
          assert SelectionAt(headers, row, phrase, k) == Some(sel);
          resp' := resp[(current.value, DigitsToNat(token.value.0)) := token.value.1];
          assert resp' == resp[JudgeKey(sel) := sel.choice];
        } else {
          assert SelectionAt(headers, row, phrase, k).None?;
        }
      } else {
        assert SelectionAt(headers, row, phrase, k).None?;
      }
    } else {
      assert SelectionAt(headers, row, phrase, k).None?;
    }
  }

  /** What `user_responses.get((block, p), "No Answer")` yields, `None` for "No Answer". */
  function Answer(resp: Responses, block: string, p: nat): Option<Choice>
  {
    if (block, p) in resp then Some(resp[(block, p)]) else None
  }

  /**
    Every pair of every block records its answer: the lookup returns the
    option of the last marked column for that block and pair number, or
    nothing when no column marks one.
  */
  lemma ResponsesLastWins(headers: seq<string>, row: Row, block: string, p: nat)
    ensures var sel := Selections(headers, row, SelectPhrase);
            Answer(ResponsesOf(headers, row), block, p).Some? <==> exists k :: RecordsAt(sel, JudgeKey, k, (block, p))
    ensures var sel := Selections(headers, row, SelectPhrase);
            Answer(ResponsesOf(headers, row), block, p).Some? ==>
              exists k :: RecordsAt(sel, JudgeKey, k, (block, p))
                && Answer(ResponsesOf(headers, row), block, p) == Some(sel[k].value.choice)
                && forall m :: k < m < |sel| ==> !RecordsAt(sel, JudgeKey, m, (block, p))
  {
    var sel := Selections(headers, row, SelectPhrase);
    var resp := ResponsesOf(headers, row);
    assert resp == Record(sel, JudgeKey);
    RecordLastWins(sel, JudgeKey, (block, p));
    if (block, p) in resp {
      var k :| RecordsAt(sel, JudgeKey, k, (block, p)) && resp[(block, p)] == sel[k].value.choice
               && forall m :: k < m < |sel| ==> !RecordsAt(sel, JudgeKey, m, (block, p));
      assert Answer(resp, block, p) == Some(sel[k].value.choice);
    }
  }

  // ---------------------------------------------------------------------
  // Errors of one block
  // ---------------------------------------------------------------------

  /** The option a pattern letter names: `F` is First, `S` is Second. */
  function Expected(c: char): Option<Choice>
  {
    if c == 'F' then Some(First) else if c == 'S' then Some(Second) else None
  }

  /**
    Whether an answer matches a pattern letter; `Equal` and a missing answer
    never do.
  */
  function Correct(c: char, ans: Option<Choice>): (r: bool)
    ensures r <==> Expected(c).Some? && ans == Expected(c)
    ensures ans == None || ans == Some(Equal) ==> !r
  {
    (c == 'F' && ans == Some(First)) || (c == 'S' && ans == Some(Second))
  }

  /** The wrong pairs among pairs 1..n of a block. */
  function ErrorsUpTo(pattern: string, block: string, resp: Responses, n: nat): nat
    requires n <= |pattern|
  {
    if n == 0 then 0
    else ErrorsUpTo(pattern, block, resp, n - 1) + (if Correct(pattern[n - 1], Answer(resp, block, n)) then 0 else 1)
  }

  /** The error count of a block: its wrong pairs among pairs 1..4. */
  function ErrorCount(pattern: string, block: string, resp: Responses): nat
    requires |pattern| >= 4
  {
    ErrorsUpTo(pattern, block, resp, 4)
  }

  /**
    At most one error per pair; none exactly when every pair is right; one
    per pair exactly when every pair is wrong.
  */
  lemma {:induction false} ErrorsUpToFacts(pattern: string, block: string, resp: Responses, n: nat)
    requires n <= |pattern|
    ensures ErrorsUpTo(pattern, block, resp, n) <= n
    ensures ErrorsUpTo(pattern, block, resp, n) == 0 <==>
              forall j: nat :: 1 <= j <= n ==> Correct(pattern[j - 1], Answer(resp, block, j))
    ensures ErrorsUpTo(pattern, block, resp, n) == n <==>
              forall j: nat :: 1 <= j <= n ==> !Correct(pattern[j - 1], Answer(resp, block, j))
  {
    if n > 0 {
      ErrorsUpToFacts(pattern, block, resp, n - 1);
    }
  }

  /** Pair `j` of the block is answered with the option its pattern letter names. */
  predicate PairRight(pattern: string, block: string, resp: Responses, j: nat)
    requires 1 <= j <= |pattern|
  {
    Expected(pattern[j - 1]).Some? && Answer(resp, block, j) == Expected(pattern[j - 1])
  }

  /**
    A block's count lies in [0, 4]: 0 exactly when each `F` of the pattern is
    answered First and each `S` Second, 4 exactly when no pair is.
  */
  lemma ErrorCountFacts(pattern: string, block: string, resp: Responses)
    requires |pattern| >= 4
    ensures 0 <= ErrorCount(pattern, block, resp) <= 4
    ensures ErrorCount(pattern, block, resp) == 0 <==> forall j: nat :: 1 <= j <= 4 ==> PairRight(pattern, block, resp, j)
    ensures ErrorCount(pattern, block, resp) == 4 <==> forall j: nat :: 1 <= j <= 4 ==> !PairRight(pattern, block, resp, j)
  {
    ErrorsUpToFacts(pattern, block, resp, 4);
    if forall j: nat :: 1 <= j <= 4 ==> PairRight(pattern, block, resp, j) {
      forall j: nat | 1 <= j <= 4 ensures Correct(pattern[j - 1], Answer(resp, block, j)) {
        assert PairRight(pattern, block, resp, j);
      }
    }
    if forall j: nat :: 1 <= j <= 4 ==> Correct(pattern[j - 1], Answer(resp, block, j)) {
      forall j: nat | 1 <= j <= 4 ensures PairRight(pattern, block, resp, j) {
        assert Correct(pattern[j - 1], Answer(resp, block, j));
      }
    }
    if forall j: nat :: 1 <= j <= 4 ==> !PairRight(pattern, block, resp, j) {
      forall j: nat | 1 <= j <= 4 ensures !Correct(pattern[j - 1], Answer(resp, block, j)) {
        assert !PairRight(pattern, block, resp, j);
      }
    }
    if forall j: nat :: 1 <= j <= 4 ==> !Correct(pattern[j - 1], Answer(resp, block, j)) {
      forall j: nat | 1 <= j <= 4 ensures !PairRight(pattern, block, resp, j) {
        assert !Correct(pattern[j - 1], Answer(resp, block, j));
      }
    }
  }

  /** A block nobody answered has four errors. */
  lemma UnansweredBlock(pattern: string, block: string, resp: Responses)
    requires |pattern| >= 4
    requires forall p :: (block, p) !in resp
    ensures ErrorCount(pattern, block, resp) == 4
  {
    ErrorsUpToFacts(pattern, block, resp, 4);
  }

  /** The `errors` counter loop over pairs 1..4. */
  method CountErrors(pattern: string, block: string, resp: Responses) returns (errors: nat)
    requires |pattern| >= 4
    ensures errors == ErrorCount(pattern, block, resp)
    ensures errors <= 4
  {
    errors := 0;
    for p := 1 to 5
      invariant errors == ErrorsUpTo(pattern, block, resp, p - 1)
    {
      var ans := Answer(resp, block, p);
      var c := pattern[p - 1];
      var isCorrect := false;
      if c == 'F' && ans == Some(First) {
        isCorrect := true;
      } else if c == 'S' && ans == Some(Second) {
        isCorrect := true;
      }
      if !isCorrect {
        errors := errors + 1;
      }
    }
    ErrorsUpToFacts(pattern, block, resp, 4);
  }

  // ---------------------------------------------------------------------
  // Scoring a record
  // ---------------------------------------------------------------------

  /** Every answer-key pattern has the four letters the pair loop reads. */
  predicate PatternsReadable(keys: seq<KeyEntry>)
  {
    forall i :: 0 <= i < |keys| ==> |keys[i].pattern| >= 4
  }

  /** The score column of every key entry, in key order. */
  function KeyLabels(keys: seq<KeyEntry>): (r: seq<string>)
    ensures |r| == |keys| && forall i :: 0 <= i < |keys| ==> r[i] == KeyLabel(keys[i])
  {
    seq(|keys|, i requires 0 <= i < |keys| => KeyLabel(keys[i]))
  }

  /** The number a score column holds, 0 when it is absent. */
  function CountAt(rec: Dict<Value>, col: string): int
  {
    var v := Get(rec, col);
    if v.Some? && v.value.Count? then v.value.n else 0
  }

  /** Scoring one block into column `col`: set it to 0 if absent, then add the block's errors. */
  function ScoreBlock(rec: Dict<Value>, col: string, pattern: string, block: string, resp: Responses): Dict<Value>
    requires |pattern| >= 4
  {
    var base := if col in Keys(rec) then rec else Put(rec, col, Count(0));
    Put(base, col, Count(CountAt(base, col) + ErrorCount(pattern, block, resp)))
  }

  /** The record after the first `n` blocks were scored, block `i` into column `cols[i]`. */
  function Scored(rec: Dict<Value>, keys: seq<KeyEntry>, cols: seq<string>, blocks: seq<string>, resp: Responses, n: nat): Dict<Value>
    requires n <= |keys| && n <= |cols| && n <= |blocks| && PatternsReadable(keys)
  {
    if n == 0 then rec
    else ScoreBlock(Scored(rec, keys, cols, blocks, resp, n - 1), cols[n - 1], keys[n - 1].pattern, blocks[n - 1], resp)
  }

  /** `min(len(audio_blocks), len(all_keys))`: how many blocks get scored. */
  function ScoredCount(keys: seq<KeyEntry>, blocks: seq<string>): (n: nat)
    ensures n <= |keys| && n <= |blocks|
    ensures n == |keys| || n == |blocks|
  {
    if |blocks| < |keys| then |blocks| else |keys|
  }

  /**
    The scoring loop of part C: walks `audio_blocks` with their index and
    stops at the first index with no answer-key entry.
  */
  method ScoreRecord(rec: Dict<Value>, keys: seq<KeyEntry>, blocks: seq<string>, resp: Responses) returns (r: Dict<Value>)
    requires PatternsReadable(keys)
    ensures r == Scored(rec, keys, KeyLabels(keys), blocks, resp, ScoredCount(keys, blocks))
  {
    ghost var labels, n := KeyLabels(keys), ScoredCount(keys, blocks);
    r := rec;
    for i := 0 to |blocks|
      invariant i <= n
      invariant r == Scored(rec, keys, labels, blocks, resp, i)
    {
      if i >= |keys| {
        break;
      }
      ScoredNext(rec, keys, blocks, resp, i);
      r := ScoreOne(r, keys[i], blocks[i], resp);
    }
  }

  /** Scoring block `i` takes the record after the first `i` blocks to the record after `i + 1`. */
  lemma ScoredNext(rec: Dict<Value>, keys: seq<KeyEntry>, blocks: seq<string>, resp: Responses, i: nat)
    requires PatternsReadable(keys) && i < |keys| && i < |blocks|
    ensures Scored(rec, keys, KeyLabels(keys), blocks, resp, i + 1)
         == ScoreBlock(Scored(rec, keys, KeyLabels(keys), blocks, resp, i), KeyLabel(keys[i]), keys[i].pattern, blocks[i], resp)
  {
  }

  /** One iteration: `if col_name not in user_record: ... = 0`, count, `+= errors`. */
  method ScoreOne(rec: Dict<Value>, e: KeyEntry, block: string, resp: Responses) returns (r: Dict<Value>)
    requires |e.pattern| >= 4
    ensures r == ScoreBlock(rec, KeyLabel(e), e.pattern, block, resp)
  {
    var col := KeyLabel(e);
    r := rec;
    if col !in Keys(r) {
      r := Put(r, col, Count(0));
    }
    var errors := CountErrors(e.pattern, block, resp);
    r := Put(r, col, Count(CountAt(r, col) + errors));
  }

  /** Scoring a block whose column is absent appends the column holding its error count. */
  lemma ScoreBlockFresh(rec: Dict<Value>, col: string, pattern: string, block: string, resp: Responses)
    requires |pattern| >= 4 && col !in Keys(rec)
    ensures Keys(ScoreBlock(rec, col, pattern, block, resp)) == Keys(rec) + [col]
    ensures Get(ScoreBlock(rec, col, pattern, block, resp), col) == Some(Count(ErrorCount(pattern, block, resp)))
    ensures forall k :: k != col ==> Get(ScoreBlock(rec, col, pattern, block, resp), k) == Get(rec, k)
  {
    var base := Put(rec, col, Count(0));
    var err := ErrorCount(pattern, block, resp);
    PutGet(rec, col, Count(0), col);
    assert CountAt(base, col) == 0;
    assert ScoreBlock(rec, col, pattern, block, resp) == Put(base, col, Count(err));
    PutFreshTwice(rec, col, Count(0), Count(err));
  }

  /**
    Starting from a record holding none of the (distinct) columns: scoring
    `n` blocks appends the first `n` columns in order, column `i` holds
    exactly block `i`'s error count, and every other key keeps its value.
  */
  lemma ScoredFacts(rec: Dict<Value>, keys: seq<KeyEntry>, cols: seq<string>, blocks: seq<string>, resp: Responses, n: nat)
    requires n <= |keys| && n <= |cols| && n <= |blocks| && PatternsReadable(keys)
    requires Distinct(cols) && forall c :: c in cols ==> c !in Keys(rec)
    ensures Keys(Scored(rec, keys, cols, blocks, resp, n)) == Keys(rec) + cols[..n]
    ensures forall i :: 0 <= i < n ==>
              Get(Scored(rec, keys, cols, blocks, resp, n), cols[i]) == Some(Count(ErrorCount(keys[i].pattern, blocks[i], resp)))
    ensures forall k :: k !in cols[..n] ==> Get(Scored(rec, keys, cols, blocks, resp, n), k) == Get(rec, k)
  {
    ScoredKeys(rec, keys, cols, blocks, resp, n);
    ScoredCounts(rec, keys, cols, blocks, resp, n);
    ScoredKeeps(rec, keys, cols, blocks, resp, n);
  }

  /** The keys after scoring `n` blocks: the record's, then the first `n` columns. */
  lemma {:induction false} ScoredKeys(rec: Dict<Value>, keys: seq<KeyEntry>, cols: seq<string>, blocks: seq<string>, resp: Responses, n: nat)
    requires n <= |keys| && n <= |cols| && n <= |blocks| && PatternsReadable(keys)
    requires Distinct(cols) && forall c :: c in cols ==> c !in Keys(rec)
    ensures Keys(Scored(rec, keys, cols, blocks, resp, n)) == Keys(rec) + cols[..n]
  {
    if n == 0 {
      assert Keys(rec) + cols[..0] == Keys(rec);
    } else {
      ScoredKeys(rec, keys, cols, blocks, resp, n - 1);
      var prev := Scored(rec, keys, cols, blocks, resp, n - 1);
      var c := cols[n - 1];
      assert cols[..n] == cols[..n - 1] + [c];
      assert c !in cols[..n - 1];
      ScoreBlockFresh(prev, c, keys[n - 1].pattern, blocks[n - 1], resp);
      assert (Keys(rec) + cols[..n - 1]) + [c] == Keys(rec) + (cols[..n - 1] + [c]);
    }
  }

  /** Column `i` holds block `i`'s error count. */
  lemma {:induction false} ScoredCounts(rec: Dict<Value>, keys: seq<KeyEntry>, cols: seq<string>, blocks: seq<string>, resp: Responses, n: nat)
    requires n <= |keys| && n <= |cols| && n <= |blocks| && PatternsReadable(keys)
    requires Distinct(cols) && forall c :: c in cols ==> c !in Keys(rec)
    ensures forall i :: 0 <= i < n ==>
              Get(Scored(rec, keys, cols, blocks, resp, n), cols[i]) == Some(Count(ErrorCount(keys[i].pattern, blocks[i], resp)))
  {
    if n > 0 {
      ScoredCounts(rec, keys, cols, blocks, resp, n - 1);
      ScoredKeys(rec, keys, cols, blocks, resp, n - 1);
      var prev := Scored(rec, keys, cols, blocks, resp, n - 1);
      var c := cols[n - 1];
      var next := Scored(rec, keys, cols, blocks, resp, n);
      assert next == ScoreBlock(prev, c, keys[n - 1].pattern, blocks[n - 1], resp);
      forall i | 0 <= i < n ensures Get(next, cols[i]) == Some(Count(ErrorCount(keys[i].pattern, blocks[i], resp))) {
        if i < n - 1 {
          assert cols[i] != c;
          ScoreBlockOther(prev, c, keys[n - 1].pattern, blocks[n - 1], resp, cols[i]);
        } else {
          assert i == n - 1 && c !in cols[..n - 1];
          ScoreBlockFresh(prev, c, keys[n - 1].pattern, blocks[n - 1], resp);
        }
      }
    }
  }

  /** Every key other than the first `n` columns keeps its value. */
  lemma {:induction false} ScoredKeeps(rec: Dict<Value>, keys: seq<KeyEntry>, cols: seq<string>, blocks: seq<string>, resp: Responses, n: nat)
    requires n <= |keys| && n <= |cols| && n <= |blocks| && PatternsReadable(keys)
    ensures forall k :: k !in cols[..n] ==> Get(Scored(rec, keys, cols, blocks, resp, n), k) == Get(rec, k)
  {
    if n > 0 {
      ScoredKeeps(rec, keys, cols, blocks, resp, n - 1);
      var prev := Scored(rec, keys, cols, blocks, resp, n - 1);
      var c := cols[n - 1];
      assert cols[..n] == cols[..n - 1] + [c];
      forall k | k !in cols[..n] ensures Get(Scored(rec, keys, cols, blocks, resp, n), k) == Get(rec, k) {
        ScoreBlockOther(prev, c, keys[n - 1].pattern, blocks[n - 1], resp, k);
      }
    }
  }

  /** Scoring a block into one column leaves every other column alone. */
  lemma ScoreBlockOther(rec: Dict<Value>, col: string, pattern: string, block: string, resp: Responses, k: string)
    requires |pattern| >= 4 && k != col
    ensures Get(ScoreBlock(rec, col, pattern, block, resp), k) == Get(rec, k)
  {
    var base := if col in Keys(rec) then rec else Put(rec, col, Count(0));
    PutGet(rec, col, Count(0), k);
    PutGet(base, col, Count(CountAt(base, col) + ErrorCount(pattern, block, resp)), k);
  }

  /** Blocks after the last scored one make no difference. */
  lemma {:induction false} ScoredIgnoresLaterBlocks(rec: Dict<Value>, keys: seq<KeyEntry>, cols: seq<string>, blocks: seq<string>, extra: seq<string>, resp: Responses, n: nat)
    requires n <= |keys| && n <= |cols| && n <= |blocks| && PatternsReadable(keys)
    ensures Scored(rec, keys, cols, blocks + extra, resp, n) == Scored(rec, keys, cols, blocks, resp, n)
  {
    var all := blocks + extra;
    if n > 0 {
      var prev := Scored(rec, keys, cols, blocks, resp, n - 1);
      ScoredIgnoresLaterBlocks(rec, keys, cols, blocks, extra, resp, n - 1);
      assert all[n - 1] == blocks[n - 1];
      assert Scored(rec, keys, cols, all, resp, n)
          == ScoreBlock(Scored(rec, keys, cols, all, resp, n - 1), cols[n - 1], keys[n - 1].pattern, all[n - 1], resp);
    }
  }

  // ---------------------------------------------------------------------
  // Column order
  // ---------------------------------------------------------------------

  predicate In200(c: string) { Contains(c, "(200Hz)") }
  predicate In1000(c: string) { Contains(c, "(1000Hz)") }
  predicate In5000(c: string) { Contains(c, "(5000Hz)") }

  /** A column in none of the three score groups. */
  predicate Untagged(c: string) { !In200(c) && !In1000(c) && !In5000(c) }

  /** `get_delta_num`: the number the column name starts with, 9999 when it starts with no digit. */
  function DeltaNum(c: string): nat
  {
    var d := LeadingDigits(c);
    if |d| == 0 then 9999 else DigitsToNat(d)
  }

  /** The key of `sort(key=get_delta_num, reverse=True)` as an ascending sort. */
  function NegDelta(c: string): int { 0 - DeltaNum(c) as int }

  /** A score column's number is its delta. */
  lemma DeltaNumOfLabel(delta: nat, center: nat)
    ensures DeltaNum(Label(delta, center)) == delta
  {
    LabelLeadingDigits(delta, center);
  }

  /** `get_delta_num` reads the leading digit run of a column name. */
  lemma DeltaNumOfDigits(ds: string, rest: string)
    requires |ds| > 0 && AllDigits(ds)
    requires |rest| == 0 || !IsDigit(rest[0])
    ensures DeltaNum(ds + rest) == DigitsToNat(ds)
  {
    LeadingDigitsOf(ds, rest);
  }

  /** A column name that does not start with a digit gets the fallback 9999. */
  lemma DeltaNumNoDigits(c: string)
    requires |c| == 0 || !IsDigit(c[0])
    ensures DeltaNum(c) == 9999
  {
    LeadingDigitsOf("", c);
  }

  /** The final column order: metadata columns, then each centre group by decreasing delta. */
  function FinalOrder(cols: seq<string>): seq<string>
  {
    Arranged(cols, Untagged, In200, In1000, In5000, NegDelta)
  }

  /** Two filters that agree on every element select the same list. */
  lemma {:induction false} FilterSame(s: seq<string>, p: string -> bool, q: string -> bool)
    requires forall x :: x in s ==> p(x) == q(x)
    ensures Filter(s, p) == Filter(s, q)
  {
    if |s| > 0 {
      FilterSame(s[1..], p, q);
    }
  }

  /**
    Part 4: the three group lists, each sorted by decreasing delta, the
    columns outside all three in their original order, and their concatenation.
  */
  method OrderColumns(allCols: seq<string>) returns (finalCols: seq<string>)
    ensures finalCols == FinalOrder(allCols)
  {
    var cols200 := Filter(allCols, In200);
    var cols1000 := Filter(allCols, In1000);
    var cols5000 := Filter(allCols, In5000);
    cols200 := SortBy(cols200, NegDelta);
    cols1000 := SortBy(cols1000, NegDelta);
    cols5000 := SortBy(cols5000, NegDelta);
    SortByFacts(Filter(allCols, In200), NegDelta);
    SortByFacts(Filter(allCols, In1000), NegDelta);
    SortByFacts(Filter(allCols, In5000), NegDelta);
    var scoreColsSet := set c | c in cols200 + cols1000 + cols5000;
    forall x | x in allCols ensures (x !in scoreColsSet) == Untagged(x) {
      assert In200(x) ==> x in multiset(cols200);
      assert In1000(x) ==> x in multiset(cols1000);
      assert In5000(x) ==> x in multiset(cols5000);
    }
    var metaCols := Filter(allCols, c => c !in scoreColsSet);
    FilterSame(allCols, c => c !in scoreColsSet, Untagged);
    finalCols := metaCols + cols200 + cols1000 + cols5000;
  }

  /** `p0` selects exactly the columns the other three leave out. */
  predicate Rest(cols: seq<string>, p0: string -> bool, p1: string -> bool, p2: string -> bool, p3: string -> bool)
  {
    forall c :: c in cols ==> (p0(c) <==> !p1(c) && !p2(c) && !p3(c))
  }

  /** A column carries at most one of the three centre tags. */
  predicate OneTag(c: string)
  {
    (In200(c) ==> !In1000(c) && !In5000(c)) && (In1000(c) ==> !In5000(c))
  }

  /** The group a column lands in: 0 metadata, 1, 2, 3 for 200, 1000, 5000 Hz. */
  function Group(c: string): nat
  {
    GroupOf(c, In200, In1000, In5000)
  }

  /** The groups appear in non-decreasing order. */
  predicate GroupsInOrder(s: seq<string>)
  {
    forall i, j :: 0 <= i < j < |s| ==> Group(s[i]) <= Group(s[j])
  }

  /** `s` is in non-increasing order of `get_delta_num`. */
  predicate DeltasDescending(s: seq<string>)
  {
    forall i, j :: 0 <= i < j < |s| ==> DeltaNum(s[i]) >= DeltaNum(s[j])
  }

  // The facts about the final order hold for any three group predicates of
  // which each column satisfies at most one; they are proved in that form.

  function GroupOf(c: string, p1: string -> bool, p2: string -> bool, p3: string -> bool): nat
  {
    if p1(c) then 1 else if p2(c) then 2 else if p3(c) then 3 else 0
  }

  predicate AtMostOne(c: string, p1: string -> bool, p2: string -> bool, p3: string -> bool)
  {
    (p1(c) ==> !p2(c) && !p3(c)) && (p2(c) ==> !p3(c))
  }

  function Arranged(cols: seq<string>, p0: string -> bool, p1: string -> bool, p2: string -> bool, p3: string -> bool, key: string -> int): seq<string>
  {
    Filter(cols, p0)
      + SortBy(Filter(cols, p1), key) + SortBy(Filter(cols, p2), key) + SortBy(Filter(cols, p3), key)
  }

  predicate GroupsOrdered(s: seq<string>, p1: string -> bool, p2: string -> bool, p3: string -> bool)
  {
    forall i, j :: 0 <= i < j < |s| ==> GroupOf(s[i], p1, p2, p3) <= GroupOf(s[j], p1, p2, p3)
  }

  lemma GroupsOrderedConcat(a: seq<string>, b: seq<string>, p1: string -> bool, p2: string -> bool, p3: string -> bool, g: nat)
    requires GroupsOrdered(a, p1, p2, p3) && GroupsOrdered(b, p1, p2, p3)
    requires forall x :: x in a ==> GroupOf(x, p1, p2, p3) <= g
    requires forall y :: y in b ==> g <= GroupOf(y, p1, p2, p3)
    ensures GroupsOrdered(a + b, p1, p2, p3)
  {
    forall i, j | 0 <= i < j < |a + b| ensures GroupOf((a + b)[i], p1, p2, p3) <= GroupOf((a + b)[j], p1, p2, p3) {
      if j < |a| {
        assert (a + b)[i] == a[i] && (a + b)[j] == a[j];
      } else if i >= |a| {
        assert (a + b)[i] == b[i - |a|] && (a + b)[j] == b[j - |a|];
      } else {
        assert (a + b)[i] in a && (a + b)[j] in b;
      }
    }
  }

  lemma {:induction false} PartitionFour(cols: seq<string>, p0: string -> bool, p1: string -> bool, p2: string -> bool, p3: string -> bool)
    requires forall c :: c in cols ==> AtMostOne(c, p1, p2, p3)
    requires Rest(cols, p0, p1, p2, p3)
    ensures multiset(Filter(cols, p0)) + multiset(Filter(cols, p1))
              + multiset(Filter(cols, p2)) + multiset(Filter(cols, p3)) == multiset(cols)
  {
    if |cols| > 0 {
      var x, rest := cols[0], cols[1..];
      PartitionFour(rest, p0, p1, p2, p3);
      assert cols == [x] + rest;
      assert AtMostOne(x, p1, p2, p3);
      assert multiset(cols) == multiset{x} + multiset(rest);
    }
  }

  /** One sorted group: every element from that group, ordered by the key. */
  lemma SortedPart(cols: seq<string>, p: string -> bool, p1: string -> bool, p2: string -> bool, p3: string -> bool, key: string -> int, g: nat)
    requires forall c :: c in cols && p(c) ==> GroupOf(c, p1, p2, p3) == g
    ensures forall x :: x in SortBy(Filter(cols, p), key) ==> x in cols && p(x) && GroupOf(x, p1, p2, p3) == g
    ensures GroupsOrdered(SortBy(Filter(cols, p), key), p1, p2, p3)
    ensures SortedBy(SortBy(Filter(cols, p), key), key)
  {
    SortByFacts(Filter(cols, p), key);
    var t := SortBy(Filter(cols, p), key);
    forall x | x in t ensures x in cols && p(x) && GroupOf(x, p1, p2, p3) == g {
      assert x in multiset(t);
    }
  }

  lemma ArrangedPermutation(cols: seq<string>, p0: string -> bool, p1: string -> bool, p2: string -> bool, p3: string -> bool, key: string -> int)
    requires forall c :: c in cols ==> AtMostOne(c, p1, p2, p3)
    requires Rest(cols, p0, p1, p2, p3)
    ensures multiset(Arranged(cols, p0, p1, p2, p3, key)) == multiset(cols)
    ensures GroupsOrdered(Arranged(cols, p0, p1, p2, p3, key), p1, p2, p3)
  {
    ArrangedElements(cols, p0, p1, p2, p3, key);
    ArrangedOrdered(cols, p0, p1, p2, p3, key);
  }

  lemma ArrangedElements(cols: seq<string>, p0: string -> bool, p1: string -> bool, p2: string -> bool, p3: string -> bool, key: string -> int)
    requires forall c :: c in cols ==> AtMostOne(c, p1, p2, p3)
    requires Rest(cols, p0, p1, p2, p3)
    ensures multiset(Arranged(cols, p0, p1, p2, p3, key)) == multiset(cols)
  {
    var m := Filter(cols, p0);
    var a := SortBy(Filter(cols, p1), key);
    var b := SortBy(Filter(cols, p2), key);
    var c := SortBy(Filter(cols, p3), key);
    SortByFacts(Filter(cols, p1), key);
    SortByFacts(Filter(cols, p2), key);
    SortByFacts(Filter(cols, p3), key);
    PartitionFour(cols, p0, p1, p2, p3);
    assert multiset(m + a + b + c) == multiset(m) + multiset(a) + multiset(b) + multiset(c);
  }

  lemma ArrangedOrdered(cols: seq<string>, p0: string -> bool, p1: string -> bool, p2: string -> bool, p3: string -> bool, key: string -> int)
    requires forall c :: c in cols ==> AtMostOne(c, p1, p2, p3)
    requires Rest(cols, p0, p1, p2, p3)
    ensures GroupsOrdered(Arranged(cols, p0, p1, p2, p3, key), p1, p2, p3)
  {
    var m := Filter(cols, p0);
    var a := SortBy(Filter(cols, p1), key);
    var b := SortBy(Filter(cols, p2), key);
    var c := SortBy(Filter(cols, p3), key);
    SortedPart(cols, p1, p1, p2, p3, key, 1);
    SortedPart(cols, p2, p1, p2, p3, key, 2);
    SortedPart(cols, p3, p1, p2, p3, key, 3);
    assert forall x :: x in m ==> GroupOf(x, p1, p2, p3) == 0;
    GroupsOrderedConcat(m, a, p1, p2, p3, 0);
    GroupsOrderedConcat(m + a, b, p1, p2, p3, 1);
    GroupsOrderedConcat(m + a + b, c, p1, p2, p3, 2);
  }

  lemma Filter4(m: seq<string>, a: seq<string>, b: seq<string>, c: seq<string>, p: string -> bool)
    ensures Filter(m + a + b + c, p) == Filter(m, p) + Filter(a, p) + Filter(b, p) + Filter(c, p)
  {
    FilterConcat(m, a, p);
    FilterConcat(m + a, b, p);
    FilterConcat(m + a + b, c, p);
  }

  /** Filtering the arrangement by one of its group predicates leaves that group alone. */
  lemma ArrangedSelect(cols: seq<string>, p0: string -> bool, p1: string -> bool, p2: string -> bool, p3: string -> bool, key: string -> int)
    requires forall c :: c in cols ==> AtMostOne(c, p1, p2, p3)
    requires Rest(cols, p0, p1, p2, p3)
    ensures Filter(Arranged(cols, p0, p1, p2, p3, key), p0) == Filter(cols, p0)
    ensures Filter(Arranged(cols, p0, p1, p2, p3, key), p1) == SortBy(Filter(cols, p1), key)
    ensures Filter(Arranged(cols, p0, p1, p2, p3, key), p2) == SortBy(Filter(cols, p2), key)
    ensures Filter(Arranged(cols, p0, p1, p2, p3, key), p3) == SortBy(Filter(cols, p3), key)
  {
    var m := Filter(cols, p0);
    var a := SortBy(Filter(cols, p1), key);
    var b := SortBy(Filter(cols, p2), key);
    var c := SortBy(Filter(cols, p3), key);
    SortedPart(cols, p1, p1, p2, p3, key, 1);
    SortedPart(cols, p2, p1, p2, p3, key, 2);
    SortedPart(cols, p3, p1, p2, p3, key, 3);
    Filter4(m, a, b, c, p0);
    FilterAll(m, p0); FilterNone(a, p0); FilterNone(b, p0); FilterNone(c, p0);
    Filter4(m, a, b, c, p1);
    FilterNone(m, p1); FilterAll(a, p1); FilterNone(b, p1); FilterNone(c, p1);
    Filter4(m, a, b, c, p2);
    FilterNone(m, p2); FilterNone(a, p2); FilterAll(b, p2); FilterNone(c, p2);
    Filter4(m, a, b, c, p3);
    FilterNone(m, p3); FilterNone(a, p3); FilterNone(b, p3); FilterAll(c, p3);
  }

  /**
    When no column carries two centre tags, the final order is a permutation
    of the columns and the groups come metadata, 200 Hz, 1000 Hz, 5000 Hz.
  */
  lemma FinalOrderPermutation(cols: seq<string>)
    requires forall c :: c in cols ==> OneTag(c)
    ensures multiset(FinalOrder(cols)) == multiset(cols)
    ensures GroupsInOrder(FinalOrder(cols))
  {
    ArrangedPermutation(cols, Untagged, In200, In1000, In5000, NegDelta);
  }

  /**
    When no column carries two centre tags, the metadata columns keep their
    order and each centre group holds exactly that group's columns, stably
    sorted by decreasing delta.
  */
  lemma FinalOrderGroups(cols: seq<string>)
    requires forall c :: c in cols ==> OneTag(c)
    ensures Filter(FinalOrder(cols), Untagged) == Filter(cols, Untagged)
    ensures Filter(FinalOrder(cols), In200) == SortBy(Filter(cols, In200), NegDelta)
    ensures Filter(FinalOrder(cols), In1000) == SortBy(Filter(cols, In1000), NegDelta)
    ensures Filter(FinalOrder(cols), In5000) == SortBy(Filter(cols, In5000), NegDelta)
    ensures DeltasDescending(Filter(FinalOrder(cols), In200))
    ensures DeltasDescending(Filter(FinalOrder(cols), In1000))
    ensures DeltasDescending(Filter(FinalOrder(cols), In5000))
  {
    ArrangedSelect(cols, Untagged, In200, In1000, In5000, NegDelta);
    SortDescending(Filter(cols, In200));
    SortDescending(Filter(cols, In1000));
    SortDescending(Filter(cols, In5000));
  }

  /** Sorting by the negated delta puts the deltas in decreasing order. */
  lemma SortDescending(s: seq<string>)
    ensures DeltasDescending(SortBy(s, NegDelta))
  {
    SortByFacts(s, NegDelta);
    var t := SortBy(s, NegDelta);
    forall i, j | 0 <= i < j < |t| ensures DeltaNum(t[i]) >= DeltaNum(t[j]) {
      assert NegDelta(t[i]) <= NegDelta(t[j]);
    }
  }

  /** The three centres' tags as the groups test for them. */
  lemma CenterTags()
    ensures CenterTag(200) == "(200Hz)" && CenterTag(1000) == "(1000Hz)" && CenterTag(5000) == "(5000Hz)"
  {
    assert NatToString(2) == "2";
    assert NatToString(20) == "20";
    assert NatToString(200) == "200";
    assert NatToString(1) == "1";
    assert NatToString(10) == "10";
    assert NatToString(100) == "100";
    assert NatToString(1000) == "1000";
    assert NatToString(5) == "5";
    assert NatToString(50) == "50";
    assert NatToString(500) == "500";
    assert NatToString(5000) == "5000";
  }

  /** A score column falls in the group of its own centre and no other. */
  lemma LabelGroup(delta: nat, center: nat)
    ensures In200(Label(delta, center)) <==> center == 200
    ensures In1000(Label(delta, center)) <==> center == 1000
    ensures In5000(Label(delta, center)) <==> center == 5000
  {
    CenterTags();
    LabelHasTag(delta, center, 200);
    LabelHasTag(delta, center, 1000);
    LabelHasTag(delta, center, 5000);
  }

  // ---------------------------------------------------------------------
  // Score columns never clash with copied columns
  // ---------------------------------------------------------------------

  /** The characters score columns are made of: digits, space, parentheses, `H` and `z`. */
  predicate LabelChar(c: char)
  {
    IsDigit(c) || c == ' ' || c == '(' || c == ')' || c == 'H' || c == 'z'
  }

  /** `s` has a character no score column has. */
  predicate Foreign(s: string)
  {
    exists m :: 0 <= m < |s| && !LabelChar(s[m])
  }

  lemma LabelChars(delta: nat, center: nat)
    ensures forall m :: 0 <= m < |Label(delta, center)| ==> LabelChar(Label(delta, center)[m])
  {
    var a, b := NatToString(delta), NatToString(center);
    var s := Label(delta, center);
    assert s == a + " (" + b + "Hz)";
    forall m | 0 <= m < |s| ensures LabelChar(s[m]) {
      if m < |a| {
        assert s[m] == a[m];
      } else if m < |a| + 2 {
      } else if m < |a| + 2 + |b| {
        assert s[m] == b[m - |a| - 2];
      }
    }
  }

  /** No column holding a foreign character is a score column. */
  lemma ForeignNotLabel(s: string, delta: nat, center: nat)
    requires Foreign(s)
    ensures s != Label(delta, center)
  {
    LabelChars(delta, center);
  }

  /** A string containing a foreign substring is foreign. */
  lemma ContainsForeign(s: string, t: string)
    requires Contains(s, t) && Foreign(t)
    ensures Foreign(s)
  {
    ContainsAt(s, t);
    var i :| OccursAt(s, t, i);
    var m :| 0 <= m < |t| && !LabelChar(t[m]);
    assert s[i + m] == t[m];
  }

  /** Every demographic keyword, and so every demographic column, is foreign. */
  lemma DemoKeywordsForeign()
    ensures forall i :: 0 <= i < |DemoKeywords| ==> Foreign(DemoKeywords[i])
  {
    assert !LabelChar(DemoKeywords[0][0]);
    assert !LabelChar(DemoKeywords[1][0]);
    assert !LabelChar(DemoKeywords[2][0]);
    assert !LabelChar(DemoKeywords[3][0]);
    assert !LabelChar(DemoKeywords[4][0]);
    assert !LabelChar(DemoKeywords[5][0]);
    assert !LabelChar(DemoKeywords[6][1]);
  }

  /** Every English metadata name is foreign and has no `z`, and no two are equal. */
  lemma MetadataTargetsFacts()
    ensures forall i :: 0 <= i < |MetadataTable| ==> Foreign(MetadataTable[i].1)
    ensures forall i :: 0 <= i < |MetadataTable| ==> 'z' !in MetadataTable[i].1
    ensures DistinctTargets(MetadataTable)
  {
    MetadataTargetsForeign();
    MetadataTargetsNoZ();
    MetadataTargetsDistinct();
  }

  /** No English metadata name is among the demographic columns found, whatever the headers. */
  lemma MetadataTargetsNotDemoCols(headers: seq<string>)
    ensures forall i :: 0 <= i < |MetadataTable| ==> MetadataTable[i].1 !in DemoCols(DemoKeywords, headers)
  {
    MetadataTargetsNotDemo();
  }

  /** Characters of the keywords that no English metadata name has. */
  lemma MetadataTargetsLackChar(c: char)
    requires c == 'b' || c == 'W' || c == 'H'
    ensures forall i :: 0 <= i < |MetadataTable| ==> c !in MetadataTable[i].1
  {
  }

  /** Only `Longitude` has a `g`, and it has no `a`. */
  lemma MetadataTargetsLackG()
    ensures forall i :: 0 <= i < |MetadataTable| && i != 6 ==> 'g' !in MetadataTable[i].1
    ensures 'a' !in MetadataTable[6].1
  {
  }

  /** No English metadata name contains a demographic keyword, so none is taken for a demographic column. */
  lemma MetadataTargetsNotDemo()
    ensures forall i, j :: 0 <= i < |MetadataTable| && 0 <= j < |DemoKeywords| ==>
              !Contains(MetadataTable[i].1, DemoKeywords[j])
  {
    MetadataTargetsLackChar('b');
    MetadataTargetsLackChar('W');
    MetadataTargetsLackChar('H');
    MetadataTargetsLackG();
    forall i, j | 0 <= i < |MetadataTable| && 0 <= j < |DemoKeywords|
      ensures !Contains(MetadataTable[i].1, DemoKeywords[j])
    {
      var name, kw := MetadataTable[i].1, DemoKeywords[j];
      if j == 0 || j == 4 {
        MissingCharNotContained(name, kw, 'b');
      } else if j == 2 || j == 5 {
        MissingCharNotContained(name, kw, 'W');
      } else if j == 6 {
        MissingCharNotContained(name, kw, 'H');
      } else if i == 6 {
        MissingCharNotContained(name, kw, 'a');
      } else {
        MissingCharNotContained(name, kw, 'g');
      }
    }
  }

  lemma MetadataTargetsForeign()
    ensures forall i :: 0 <= i < |MetadataTable| ==> Foreign(MetadataTable[i].1)
  {
    forall i | 0 <= i < |MetadataTable| ensures Foreign(MetadataTable[i].1) {
      assert !LabelChar(MetadataTable[i].1[0]);
    }
  }

  lemma MetadataTargetsNoZ()
    ensures forall i :: 0 <= i < |MetadataTable| ==> 'z' !in MetadataTable[i].1
  {
  }

  lemma MetadataTargetsDistinct()
    ensures DistinctTargets(MetadataTable)
  {
    var t := MetadataTable;
    var keys := [21093, 21875, 21364, 17774, 21615, 18768, 19567, 19553, 20594, 17257, 17509, 20307, 17010, 21347];
    forall i | 0 <= i < |t| ensures NameKey(t[i].1) == keys[i] {
    }
    forall i, j | 0 <= i < j < |t| ensures t[i].1 != t[j].1 {
      assert keys[i] != keys[j];
    }
  }

  // ---------------------------------------------------------------------
  // One respondent
  // ---------------------------------------------------------------------

  /** The answer key's patterns can all be read by the pair loop. */
  lemma CombinedKeysReadable()
    ensures PatternsReadable(CombinedKeys())
  {
    CombinedKeysFacts();
  }

  /** Part A: the translated metadata, then the demographic answers. */
  function MetaRecord(headers: seq<string>, row: Row): Dict<string>
  {
    var demo := DemoCols(DemoKeywords, headers);
    CopiedColumns(Translated([], MetadataTable, headers, row, |MetadataTable|), demo, row, |demo|)
  }

  /** The keys part A writes; they depend on the headers only. */
  function MetaColumns(headers: seq<string>): seq<string>
  {
    var demo := DemoCols(DemoKeywords, headers);
    AddKeys(PresentTargets(MetadataTable, headers, |MetadataTable|), demo, |demo|)
  }

  /** The record of one respondent: part A, then the scores of part C for the responses of part B. */
  function RowRecord(headers: seq<string>, row: Row): Dict<Value>
  {
    var keys := CombinedKeys();
    var blocks := Dedup(BlockNames(headers));
    assert PatternsReadable(keys) by { CombinedKeysReadable(); }
    Scored(Lift(MetaRecord(headers, row)), keys, KeyLabels(keys), blocks, ResponsesOf(headers, row), ScoredCount(keys, blocks))
  }

  /** How many audio blocks are scored. */
  function BlocksScored(headers: seq<string>): nat
  {
    ScoredCount(CombinedKeys(), Dedup(BlockNames(headers)))
  }

  /** The keys of every respondent's record: part A's keys, then one score column per scored block. */
  function RowColumns(headers: seq<string>): seq<string>
  {
    MetaColumns(headers) + KeyLabels(CombinedKeys())[..BlocksScored(headers)]
  }

  /**
    Part A writes the translated metadata names present in the export and
    the demographic columns found, all distinct and none a score column;
    each demographic column holds its cell, and so does each metadata name
    present in the export.
  */
  lemma MetaRecordFacts(headers: seq<string>, row: Row)
    ensures Keys(MetaRecord(headers, row)) == MetaColumns(headers)
    ensures Distinct(MetaColumns(headers))
    ensures forall c :: c in MetaColumns(headers) ==> Foreign(c)
    ensures forall c :: c in DemoCols(DemoKeywords, headers) ==> Get(MetaRecord(headers, row), c) == Some(Cell(row, c))
    ensures forall i :: 0 <= i < |MetadataTable| && MetadataTable[i].0 in headers ==>
              Get(MetaRecord(headers, row), MetadataTable[i].1) == Some(Cell(row, MetadataTable[i].0))
  {
    var demo := DemoCols(DemoKeywords, headers);
    var base := Translated([], MetadataTable, headers, row, |MetadataTable|);
    MetadataTargetsFacts();
    MetadataTargetsNotDemoCols(headers);
    DemoKeywordsForeign();
    TranslatedFacts(MetadataTable, headers, row, |MetadataTable|);
    PresentTargetsDistinct(MetadataTable, headers, |MetadataTable|);
    CopiedColumnsFacts(base, demo, row, |demo|);
    CopiedColumnsKeys(base, demo, row, |demo|);
    assert demo[..|demo|] == demo;
    forall c | c in MetaColumns(headers) ensures Foreign(c) {
      if c in demo {
        var i :| 0 <= i < |DemoKeywords| && Contains(c, DemoKeywords[i]);
        ContainsForeign(c, DemoKeywords[i]);
      } else {
        assert c in PresentTargets(MetadataTable, headers, |MetadataTable|);
      }
    }
  }

  /** The score columns of the answer key are distinct and none is foreign. */
  lemma KeyLabelsFacts()
    ensures Distinct(KeyLabels(CombinedKeys()))
    ensures forall c :: c in KeyLabels(CombinedKeys()) ==> !Foreign(c)
  {
    KeyLabelsDistinct();
    KeyLabelsNative();
  }

  /** No two answer-key entries share a score column. */
  lemma KeyLabelsDistinct()
    ensures Distinct(KeyLabels(CombinedKeys()))
  {
    CombinedKeysFacts();
    var labels := KeyLabels(CombinedKeys());
    forall i, j | 0 <= i < j < |labels| ensures labels[i] != labels[j] {
      assert labels[i] == KeyLabel(CombinedKeys()[i]);
    }
  }

  /** Every score column is made of label characters only, so none is foreign. */
  lemma KeyLabelsNative()
    ensures forall c :: c in KeyLabels(CombinedKeys()) ==> !Foreign(c)
  {
    CombinedKeysFacts();
    var keys := CombinedKeys();
    forall c | c in KeyLabels(keys) ensures !Foreign(c) {
      var i :| 0 <= i < |keys| && KeyLabels(keys)[i] == c;
      LabelChars(Delta(keys[i]), keys[i].center);
    }
  }

  /** A respondent's record has the columns `RowColumns(headers)`, all distinct. */
  lemma RowColumnsFacts(headers: seq<string>, row: Row)
    ensures Keys(RowRecord(headers, row)) == RowColumns(headers)
    ensures Distinct(RowColumns(headers))
  {
    var keys := CombinedKeys();
    var blocks := Dedup(BlockNames(headers));
    var n := BlocksScored(headers);
    var labels := KeyLabels(keys);
    CombinedKeysReadable();
    MetaRecordFacts(headers, row);
    KeyLabelsFacts();
    ScoredFacts(Lift(MetaRecord(headers, row)), keys, labels, blocks, ResponsesOf(headers, row), n);
    var r := RowColumns(headers);
    var m := MetaColumns(headers);
    forall i, j | 0 <= i < j < |r| ensures r[i] != r[j] {
      if j < |m| {
        assert r[i] == m[i] && r[j] == m[j];
      } else if i >= |m| {
        assert r[i] == labels[i - |m|] && r[j] == labels[j - |m|];
      } else {
        assert r[i] in m && r[j] == labels[j - |m|];
      }
    }
  }

  /** Scoring into absent, distinct columns: column `i` holds block `i`'s count, between 0 and 4. */
  lemma ScoredValues(rec: Dict<Value>, keys: seq<KeyEntry>, blocks: seq<string>, resp: Responses, n: nat)
    requires n <= |keys| && n <= |blocks| && PatternsReadable(keys)
    requires Distinct(KeyLabels(keys)) && forall c :: c in KeyLabels(keys) ==> c !in Keys(rec)
    ensures forall i :: 0 <= i < n ==>
              Get(Scored(rec, keys, KeyLabels(keys), blocks, resp, n), KeyLabel(keys[i])) ==
                Some(Count(ErrorCount(keys[i].pattern, blocks[i], resp)))
    ensures forall i :: 0 <= i < n ==>
              0 <= CountAt(Scored(rec, keys, KeyLabels(keys), blocks, resp, n), KeyLabel(keys[i])) <= 4
  {
    ScoredFacts(rec, keys, KeyLabels(keys), blocks, resp, n);
    forall i | 0 <= i < n ensures 0 <= CountAt(Scored(rec, keys, KeyLabels(keys), blocks, resp, n), KeyLabel(keys[i])) <= 4 {
      ErrorCountFacts(keys[i].pattern, blocks[i], resp);
    }
  }

  /**
    In a respondent's record the score column of block `i` holds that
    block's error count, between 0 and 4.
  */
  lemma RowRecordScores(headers: seq<string>, row: Row)
    ensures PatternsReadable(CombinedKeys())
    ensures forall i :: 0 <= i < BlocksScored(headers) ==>
              Get(RowRecord(headers, row), KeyLabel(CombinedKeys()[i])) ==
                Some(Count(ErrorCount(CombinedKeys()[i].pattern, Dedup(BlockNames(headers))[i], ResponsesOf(headers, row))))
    ensures forall i :: 0 <= i < BlocksScored(headers) ==>
              0 <= CountAt(RowRecord(headers, row), KeyLabel(CombinedKeys()[i])) <= 4
  {
    CombinedKeysReadable();
    MetaRecordFacts(headers, row);
    KeyLabelsFacts();
    ScoredValues(Lift(MetaRecord(headers, row)), CombinedKeys(), Dedup(BlockNames(headers)), ResponsesOf(headers, row), BlocksScored(headers));
  }

  /** Scoring leaves the part A columns as part A wrote them. */
  lemma RowRecordMeta(headers: seq<string>, row: Row)
    ensures forall c :: c in MetaColumns(headers) ==> Get(RowRecord(headers, row), c) == Get(Lift(MetaRecord(headers, row)), c)
  {
    var keys := CombinedKeys();
    var n := BlocksScored(headers);
    var labels := KeyLabels(keys);
    CombinedKeysReadable();
    MetaRecordFacts(headers, row);
    KeyLabelsFacts();
    forall c | c in MetaColumns(headers) ensures c !in labels[..n] {
      assert c !in labels;
    }
    ScoredFacts(Lift(MetaRecord(headers, row)), keys, labels, Dedup(BlockNames(headers)), ResponsesOf(headers, row), n);
  }

  /** Every metadata name lies outside the three score groups. */
  lemma MetadataUntagged(c: string)
    requires 'z' !in c
    ensures Untagged(c)
  {
    MissingChar(c, "(200Hz)", 5);
    MissingChar(c, "(1000Hz)", 6);
    MissingChar(c, "(5000Hz)", 6);
  }

  // ---------------------------------------------------------------------
  // The whole survey
  // ---------------------------------------------------------------------

  /** The respondent records as a function of the row. */
  function RowFn(headers: seq<string>): Row -> Dict<Value>
  {
    row => RowRecord(headers, row)
  }

  /** The records of the data rows: one per row after the first. */
  function DataRecords(headers: seq<string>, rows: seq<Row>): seq<Dict<Value>>
  {
    PerDataRow(rows, RowFn(headers))
  }

  /** The body of the row loop: parts A, B and C for one respondent. */
  method ProcessRow(headers: seq<string>, demo: seq<string>, blocks: seq<string>, keys: seq<KeyEntry>, row: Row) returns (rec: Dict<Value>)
    requires demo == DemoCols(DemoKeywords, headers)
    requires blocks == Dedup(BlockNames(headers))
    requires keys == CombinedKeys()
    ensures rec == RowRecord(headers, row)
  {
    CombinedKeysReadable();
    var meta := CopyMetadata([], MetadataTable, headers, row);
    meta := CopyColumns(meta, demo, row);
    var resp := ExtractResponses(headers, row, SelectPhrase);
    rec := ScoreRecord(Lift(meta), keys, blocks, resp);
  }

  /**
    `process_survey_scoring_grouped` on a parsed export: `headers` are the
    columns and `rows` the rows; row 0 is skipped. The result is one record
    per remaining row and the final column order.
  */
  method ProcessSurveyScoringGrouped(headers: seq<string>, rows: seq<Row>) returns (columns: seq<string>, records: seq<Dict<Value>>)
    ensures records == DataRecords(headers, rows)
    ensures columns == FinalOrder(FrameColumns(records))
  {
    var keys := BuildKeys();
    var demo := FindDemoCols(DemoKeywords, headers);
    var blocks := DiscoverBlocks(headers);
    records := ProcessRows(headers, demo, blocks, keys, rows);
    columns := OrderColumns(FrameColumns(records));
  }

  /** Part 3: the loop over the data rows, collecting one record per row. */
  method ProcessRows(headers: seq<string>, demo: seq<string>, blocks: seq<string>, keys: seq<KeyEntry>, rows: seq<Row>)
    returns (records: seq<Dict<Value>>)
    requires demo == DemoCols(DemoKeywords, headers)
    requires blocks == Dedup(BlockNames(headers))
    requires keys == CombinedKeys()
    ensures records == DataRecords(headers, rows)
  {
    ghost var f := RowFn(headers);
    var data := DataRows(rows);
    records := [];
    for k := 0 to |data|
      invariant records == PerDataRow(rows, f)[..k]
    {
      var rec := ProcessRow(headers, demo, blocks, keys, data[k]);
      PerDataRowStep(rows, f, records, rec, k);
      records := records + [rec];
    }
    PerDataRowDone(rows, f, records);
  }

  /** With at least one data row, the frame's columns are the columns of every record. */
  lemma SurveyColumns(headers: seq<string>, rows: seq<Row>)
    requires |rows| >= 2
    ensures FrameColumns(DataRecords(headers, rows)) == RowColumns(headers)
    ensures Distinct(RowColumns(headers))
  {
    var recs := DataRecords(headers, rows);
    forall i | 0 <= i < |recs| ensures Keys(recs[i]) == RowColumns(headers) {
      RowColumnsFacts(headers, rows[i + 1]);
    }
    RowColumnsFacts(headers, rows[1]);
    FrameColumnsUniform(recs, RowColumns(headers));
  }

  /**
    Each score column lies in the group of its centre: blocks 1-10 in the
    200 Hz group, 11-20 in the 1000 Hz group, 21-30 in the 5000 Hz group;
    its number is its delta.
  */
  lemma ScoreColumnGroups()
    ensures forall i :: 0 <= i < 10 ==> Group(KeyLabel(CombinedKeys()[i])) == 1
    ensures forall i :: 10 <= i < 20 ==> Group(KeyLabel(CombinedKeys()[i])) == 2
    ensures forall i :: 20 <= i < 30 ==> Group(KeyLabel(CombinedKeys()[i])) == 3
    ensures forall i :: 0 <= i < 30 ==> OneTag(KeyLabel(CombinedKeys()[i]))
    ensures forall i :: 0 <= i < 30 ==> DeltaNum(KeyLabel(CombinedKeys()[i])) == Delta(CombinedKeys()[i])
  {
    CombinedKeysFacts();
    forall i | 0 <= i < 30
      ensures var e := CombinedKeys()[i];
              OneTag(KeyLabel(e)) && DeltaNum(KeyLabel(e)) == Delta(e)
              && Group(KeyLabel(e)) == (if e.center == 200 then 1 else if e.center == 1000 then 2 else 3)
    {
      var e := CombinedKeys()[i];
      LabelGroup(Delta(e), e.center);
      DeltaNumOfLabel(Delta(e), e.center);
    }
  }

  /**
    When no demographic column carries two centre tags, no output column
    does, so the final order is a permutation of the record columns,
    grouped and sorted as `FinalOrderPermutation` and `FinalOrderGroups`
    state; the metadata names are never in a score group.
  */
  lemma SurveyColumnsOneTag(headers: seq<string>)
    requires forall c :: c in DemoCols(DemoKeywords, headers) ==> OneTag(c)
    ensures forall c :: c in RowColumns(headers) ==> OneTag(c)
    ensures forall c :: c in PresentTargets(MetadataTable, headers, |MetadataTable|) ==> Untagged(c)
  {
    PresentTargetsUntagged(headers);
    MetaColumnsOneTag(headers);
    ScoreLabelsOneTag(headers);
  }

  /** The metadata names written carry no centre tag. */
  lemma PresentTargetsUntagged(headers: seq<string>)
    ensures forall c :: c in PresentTargets(MetadataTable, headers, |MetadataTable|) ==> Untagged(c)
  {
    MetadataTargetsDistinct();
    MetadataTargetsNoZ();
    TranslatedFacts(MetadataTable, headers, map[], |MetadataTable|);
    forall c | c in PresentTargets(MetadataTable, headers, |MetadataTable|) ensures Untagged(c) {
      var i :| 0 <= i < |MetadataTable| && MetadataTable[i].0 in headers && MetadataTable[i].1 == c;
      MetadataUntagged(c);
    }
  }

  /** Part A's columns carry at most one centre tag each. */
  lemma MetaColumnsOneTag(headers: seq<string>)
    requires forall c :: c in DemoCols(DemoKeywords, headers) ==> OneTag(c)
    ensures forall c :: c in MetaColumns(headers) ==> OneTag(c)
  {
    var demo := DemoCols(DemoKeywords, headers);
    var present := PresentTargets(MetadataTable, headers, |MetadataTable|);
    PresentTargetsUntagged(headers);
    AddKeysFacts(present, demo, |demo|);
    assert demo[..|demo|] == demo;
  }

  /** Every score column that is written carries exactly its own centre tag. */
  lemma ScoreLabelsOneTag(headers: seq<string>)
    ensures forall c :: c in KeyLabels(CombinedKeys())[..BlocksScored(headers)] ==> OneTag(c)
  {
    var labels := KeyLabels(CombinedKeys())[..BlocksScored(headers)];
    ScoreColumnGroups();
    CombinedKeysFacts();
    forall c | c in labels ensures OneTag(c) {
      var i :| 0 <= i < |labels| && labels[i] == c;
      assert c == KeyLabel(CombinedKeys()[i]);
    }
  }
}
