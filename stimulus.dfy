/**
  The 5000 Hz stimulus generator (`make_audio_record.py`): a pool of
  comparison frequencies below the centre, shuffled; for each, a clip of
  four presentations of the pair in random order, an answer code over
  {F, S} recording which tone came first, a file name and a CSV row.

  A clip is modelled by its layout: the silences and tones it is made of,
  with their lengths in samples. The random draws are inputs.
*/
module Stimulus {
  import opened Wrappers
  import opened Strings
  import opened AnswerKey
  import opened Survey
  import opened Judge

  const SampleRate: nat := 44100
  /** `int(0.2 * SAMPLE_RATE)`: the product is 8820 in double precision. */
  const Duration200ms: nat := 8820
  /** `int(0.5 * SAMPLE_RATE)`. */
  const Duration500ms: nat := 22050

  const CenterFreq: int := 5000
  const StepHz: int := 6
  const NumPairs: nat := 10
  const GroupName: string := "5000"

  /** A stretch of a clip: silence, or a sine tone of a frequency; both with a length in samples. */
  datatype Piece = Blank(len: nat) | Tone(freq: int, len: nat)

  /** The number of samples of a layout. */
  function Samples(ps: seq<Piece>): nat
  {
    if |ps| == 0 then 0 else Samples(ps[..|ps| - 1]) + ps[|ps| - 1].len
  }

  lemma {:induction false} SamplesConcat(a: seq<Piece>, b: seq<Piece>)
    ensures Samples(a + b) == Samples(a) + Samples(b)
    decreases |b|
  {
    if |b| == 0 {
      assert a + b == a;
    } else {
      assert (a + b)[..|a + b| - 1] == a + b[..|b| - 1];
      SamplesConcat(a, b[..|b| - 1]);
    }
  }

  /** One presentation: blank, first tone, blank, second tone, then four blanks. */
  function Presentation(f1: int, f2: int): (r: seq<Piece>)
    ensures |r| == 8
  {
    [Blank(Duration200ms), Tone(f1, Duration500ms), Blank(Duration200ms), Tone(f2, Duration500ms),
     Blank(Duration200ms), Blank(Duration200ms), Blank(Duration200ms), Blank(Duration200ms)]
  }

  /** The presentation for one draw of `random.choice([True, False])`: true puts the centre first. */
  function Ordered(center: int, comp: int, firstHigh: bool): seq<Piece>
  {
    if firstHigh then Presentation(center, comp) else Presentation(comp, center)
  }

  /** The first tone of a presentation is higher than the second. */
  predicate FirstHigher(p: seq<Piece>)
  {
    |p| == 8 && p[1].Tone? && p[3].Tone? && p[1].freq > p[3].freq
  }

  const SegmentSamples: nat := 6 * Duration200ms + 2 * Duration500ms

  lemma SamplesSnoc(ps: seq<Piece>, k: nat)
    requires k < |ps|
    ensures Samples(ps[..k + 1]) == Samples(ps[..k]) + ps[k].len
  {
    assert ps[..k + 1][..k] == ps[..k];
  }

  /** A presentation lasts six blanks and two tones: 97020 samples. */
  lemma PresentationSamples(f1: int, f2: int)
    ensures Samples(Presentation(f1, f2)) == SegmentSamples == 97020
  {
    var p := Presentation(f1, f2);
    for k := 0 to 8
      invariant Samples(p[..k]) == Duration200ms * (k - (if k >= 2 then 1 else 0) - (if k >= 4 then 1 else 0))
                                  + Duration500ms * ((if k >= 2 then 1 else 0) + (if k >= 4 then 1 else 0))
    {
      SamplesSnoc(p, k);
    }
    assert p[..8] == p;
  }

  /** `np.concatenate(segments)`. */
  function Flatten<T>(ss: seq<seq<T>>): seq<T>
  {
    if |ss| == 0 then [] else Flatten(ss[..|ss| - 1]) + ss[|ss| - 1]
  }

  /** Concatenating blocks of eight: block `i` sits at offsets `8 * i` to `8 * i + 8`. */
  lemma {:induction false} FlattenEights<T>(ss: seq<seq<T>>)
    requires forall i :: 0 <= i < |ss| ==> |ss[i]| == 8
    ensures |Flatten(ss)| == 8 * |ss|
    ensures forall i :: 0 <= i < |ss| ==> Flatten(ss)[8 * i..8 * i + 8] == ss[i]
  {
    if |ss| > 0 {
      var init, last := ss[..|ss| - 1], ss[|ss| - 1];
      FlattenEights(init);
      var f, r := Flatten(init), Flatten(ss);
      assert r == f + last;
      forall i | 0 <= i < |ss| ensures r[8 * i..8 * i + 8] == ss[i] {
        if i < |init| {
          assert 8 * i + 8 <= |f|;
          assert r[8 * i..8 * i + 8] == f[8 * i..8 * i + 8];
          assert ss[i] == init[i];
        } else {
          assert 8 * i == |f|;
          assert r[8 * i..8 * i + 8] == last;
        }
      }
    }
  }

  lemma {:induction false} FlattenSamples(ss: seq<seq<Piece>>)
    requires forall i :: 0 <= i < |ss| ==> Samples(ss[i]) == SegmentSamples
    ensures Samples(Flatten(ss)) == SegmentSamples * |ss|
  {
    if |ss| > 0 {
      FlattenSamples(ss[..|ss| - 1]);
      SamplesConcat(Flatten(ss[..|ss| - 1]), ss[|ss| - 1]);
    }
  }

  /**
    `create_audio_for_pair(center, comp)` with the four draws given: the clip
    is four presentations, the `i`-th ordered by draw `i`; the code has one
    letter per presentation, `F` when its first tone is the centre and `S`
    otherwise; the clip lasts four presentations.
  */
  method CreateAudioForPair(center: int, comp: int, draws: seq<bool>) returns (audio: seq<Piece>, code: string)
    requires |draws| == 4
    ensures |audio| == 32 && |code| == 4
    ensures forall i :: 0 <= i < 4 ==> audio[8 * i..8 * i + 8] == Ordered(center, comp, draws[i])
    ensures forall i :: 0 <= i < 4 ==> (code[i] == 'F' <==> draws[i]) && code[i] in "FS"
    ensures code == PairCode(draws)
    ensures Samples(audio) == 4 * SegmentSamples
  {
    var segments: seq<seq<Piece>> := [];
    var parts: seq<string> := [];
    for k := 0 to 4
      invariant |segments| == |parts| == k
      invariant forall i :: 0 <= i < k ==> segments[i] == Ordered(center, comp, draws[i])
      invariant forall i :: 0 <= i < k ==> parts[i] == (if draws[i] then "F" else "S")
    {
      var f1, f2, c;
      if draws[k] {
        f1, f2, c := center, comp, "F";
      } else {
        f1, f2, c := comp, center, "S";
      }
      segments := segments + [Presentation(f1, f2)];
      parts := parts + [c];
    }
    audio := Flatten(segments);
    code := Flatten(parts);
    FlattenEights(segments);
    forall i | 0 <= i < 4 ensures Samples(segments[i]) == SegmentSamples {
      if draws[i] { PresentationSamples(center, comp); } else { PresentationSamples(comp, center); }
    }
    FlattenSamples(segments);
    JoinLetters(parts);
    SameCode(code, draws);
  }

  /** A code with the letter of each draw is the code of those draws. */
  lemma SameCode(code: string, draws: seq<bool>)
    requires |code| == |draws|
    requires forall i :: 0 <= i < |draws| ==> (code[i] == 'F' <==> draws[i]) && code[i] in "FS"
    ensures code == PairCode(draws)
  {
    var p := PairCode(draws);
    forall i | 0 <= i < |draws| ensures code[i] == p[i] {
      assert code[i] in "FS" && p[i] in "FS";
    }
  }

  /** Joining one-letter strings gives the string of those letters. */
  lemma {:induction false} JoinLetters(parts: seq<string>)
    requires forall i :: 0 <= i < |parts| ==> |parts[i]| == 1
    ensures |Flatten(parts)| == |parts|
    ensures forall i :: 0 <= i < |parts| ==> Flatten(parts)[i] == parts[i][0]
  {
    if |parts| > 0 {
      JoinLetters(parts[..|parts| - 1]);
    }
  }

  /**
    The code says which tone is higher: when the comparison tone is below the
    centre, letter `F` marks exactly the presentations whose first tone is
    higher.
  */
  lemma CodeMeansFirstHigher(center: int, comp: int, firstHigh: bool)
    requires comp < center
    ensures FirstHigher(Ordered(center, comp, firstHigh)) <==> firstHigh
  {
  }

  /** The letters of the answer code for the given draws. */
  function PairCode(draws: seq<bool>): (code: string)
    ensures |code| == |draws|
    ensures forall i :: 0 <= i < |draws| ==> (code[i] == 'F' <==> draws[i]) && code[i] in "FS"
  {
    if |draws| == 0 then [] else PairCode(draws[..|draws| - 1]) + [if draws[|draws| - 1] then 'F' else 'S']
  }

  /**
    The listener who answers each pair by which tone they hear higher
    (First when the first tone is higher, Second otherwise).
  */
  function HeardAnswers(block: string, center: int, comp: int, draws: seq<bool>): Responses
    requires |draws| == 4
  {
    map j: nat | 1 <= j <= 4 :: (block, j) := if FirstHigher(Ordered(center, comp, draws[j - 1])) then First else Second
  }

  /**
    A code made here and scored by the survey scorer: a listener who always
    picks the higher tone makes no error on the block.
  */
  lemma HeardAnswersScoreZero(block: string, center: int, comp: int, draws: seq<bool>)
    requires |draws| == 4 && comp < center
    ensures ErrorCount(PairCode(draws), block, HeardAnswers(block, center, comp, draws)) == 0
  {
    var code := PairCode(draws);
    var resp := HeardAnswers(block, center, comp, draws);
    forall j: nat | 1 <= j <= 4 ensures Correct(code[j - 1], Answer(resp, block, j)) {
      HeardAnswerAt(block, center, comp, draws, j);
    }
    ErrorsUpToFacts(code, block, resp, 4);
  }

  /** The listener answers pair `j` with First exactly when the first tone was drawn higher. */
  lemma HeardAnswerAt(block: string, center: int, comp: int, draws: seq<bool>, j: nat)
    requires |draws| == 4 && comp < center && 1 <= j <= 4
    ensures Answer(HeardAnswers(block, center, comp, draws), block, j) == Some(if draws[j - 1] then First else Second)
  {
    var resp := HeardAnswers(block, center, comp, draws);
    CodeMeansFirstHigher(center, comp, draws[j - 1]);
    assert (block, j) in resp;
  }

  /** The loop of `main` that fills the pool: entry `i` is `CENTER - (i + 1) * STEP`. */
  method BuildPool() returns (pool: array<int>)
    ensures fresh(pool) && pool.Length == NumPairs
    ensures forall i :: 0 <= i < NumPairs ==> pool[i] == CenterFreq - (i + 1) * StepHz
  {
    pool := new int[NumPairs];
    for i := 0 to NumPairs
      invariant forall k :: 0 <= k < i ==> pool[k] == CenterFreq - (k + 1) * StepHz
    {
      var diff := (i + 1) * StepHz;
      pool[i] := CenterFreq - diff;
    }
  }

  /** The pool before shuffling. */
  function Unshuffled(): (r: seq<int>)
    ensures |r| == NumPairs
  {
    seq(NumPairs, i requires 0 <= i < NumPairs => CenterFreq - (i + 1) * StepHz)
  }

  /** Pool entries are distinct, strictly decreasing, and strictly between 0 and the centre. */
  lemma UnshuffledFacts()
    ensures forall i, j :: 0 <= i < j < NumPairs ==> Unshuffled()[i] > Unshuffled()[j]
    ensures forall i :: 0 <= i < NumPairs ==> 0 < Unshuffled()[i] < CenterFreq
    ensures forall i, j :: 0 <= i < NumPairs && 0 <= j < NumPairs && Unshuffled()[i] == Unshuffled()[j] ==> i == j
  {
  }

  /**
    The draws of `random.shuffle` on a list of `n`: one per position from
    `n - 1` down to 1, the `k`-th at most `n - 1 - k`.
  */
  predicate DrawsFit(draws: seq<nat>, n: nat)
  {
    |draws| == (if n == 0 then 0 else n - 1) && forall k :: 0 <= k < |draws| ==> draws[k] <= n - 1 - k
  }

  /** The list after the first `k` swaps of the shuffle. */
  function ShuffleSteps(s: seq<int>, draws: seq<nat>, k: nat): (r: seq<int>)
    requires DrawsFit(draws, |s|) && k <= |draws|
    ensures |r| == |s|
  {
    if k == 0 then s
    else
      var t := ShuffleSteps(s, draws, k - 1);
      var i, j := |s| - k, draws[k - 1];
      t[i := t[j]][j := t[i]]
  }

  function Shuffled(s: seq<int>, draws: seq<nat>): seq<int>
    requires DrawsFit(draws, |s|)
  {
    ShuffleSteps(s, draws, |draws|)
  }

  /** Exchanging two entries keeps the elements. */
  lemma SwapPermutation(t: seq<int>, i: nat, j: nat)
    requires i < |t| && j < |t|
    ensures multiset(t[i := t[j]][j := t[i]]) == multiset(t)
  {
  }

  /** Every swap keeps the elements: the shuffled list is a permutation of the original. */
  lemma {:induction false} ShuffleStepsPermutation(s: seq<int>, draws: seq<nat>, k: nat)
    requires DrawsFit(draws, |s|) && k <= |draws|
    ensures multiset(ShuffleSteps(s, draws, k)) == multiset(s)
  {
    if k > 0 {
      var t := ShuffleSteps(s, draws, k - 1);
      var i, j := |s| - k, draws[k - 1];
      assert ShuffleSteps(s, draws, k) == t[i := t[j]][j := t[i]];
      ShuffleStepsPermutation(s, draws, k - 1);
      SwapPermutation(t, i, j);
    }
  }

  /** `random.shuffle(freq_pool)`: Fisher-Yates with the given draws. */
  method Shuffle(a: array<int>, draws: seq<nat>)
    requires DrawsFit(draws, a.Length)
    modifies a
    ensures a[..] == Shuffled(old(a[..]), draws)
  {
    ghost var s := a[..];
    var i := a.Length - 1;
    while i > 0
      invariant |draws| == 0 ==> i <= 0
      invariant |draws| > 0 ==> 0 <= i <= a.Length - 1
      invariant a[..] == ShuffleSteps(s, draws, if |draws| == 0 then 0 else a.Length - 1 - i)
    {
      var j := draws[a.Length - 1 - i];
      a[i], a[j] := a[j], a[i];
      i := i - 1;
    }
  }

  /** One line of the record CSV: file name, centre, comparison frequency, answer code. */
  datatype CsvRow = CsvRow(filename: string, center: int, comp: int, code: string)

  /** `f"{GROUP_NAME}-{idx}-{comp_freq}-{answer_code}.wav"`. */
  function FileName(idx: nat, comp: int, code: string): string
  {
    GroupName + "-" + NatToString(idx) + "-" + IntToString(comp) + "-" + code + ".wav"
  }

  /** A number followed by a dash at the start of `r`: the number and what follows the dash. */
  function ParseField(r: string): Option<(nat, string)>
  {
    var d := LeadingDigits(r);
    if |d| == 0 || |d| == |r| || r[|d|] != '-' then None else Some((DigitsToNat(d), r[|d| + 1..]))
  }

  lemma ParseFieldOf(n: nat, rest: string)
    ensures ParseField(NatToString(n) + "-" + rest) == Some((n, rest))
  {
    var a := NatToString(n);
    var r := a + "-" + rest;
    assert r == a + ("-" + rest);
    LeadingDigitsOf(a, "-" + rest);
    assert r[|a|] == '-';
    assert r[|a| + 1..] == rest;
  }

  /** Reads back index, comparison frequency and code from a file name of this generator. */
  function ParseFileName(name: string): Option<(nat, nat, string)>
  {
    if StartsWith(name, GroupName + "-") then ParseNumbered(name[|GroupName| + 1..]) else None
  }

  /** What follows the group name: `{idx}-{comp}-{code}.wav`. */
  function ParseNumbered(r: string): Option<(nat, nat, string)>
  {
    match ParseField(r)
    case None => None
    case Some((idx, r1)) =>
      match ParseField(r1)
      case None => None
      case Some((comp, r2)) =>
        if |r2| < 4 || r2[|r2| - 4..] != ".wav" then None else Some((idx, comp, r2[..|r2| - 4]))
  }

  lemma ParseGroupPrefix(r: string)
    ensures ParseFileName(GroupName + "-" + r) == ParseNumbered(r)
  {
    var name := GroupName + "-" + r;
    assert name[..|GroupName| + 1] == GroupName + "-";
    assert name[|GroupName| + 1..] == r;
  }

  /** The file name determines the index, the frequency and the code it was made from. */
  lemma FileNameRoundTrip(idx: nat, comp: nat, code: string)
    ensures ParseFileName(FileName(idx, comp, code)) == Some((idx, comp, code))
  {
    var r2 := NatToString(comp) + "-" + (code + ".wav");
    var r1 := NatToString(idx) + "-" + r2;
    assert FileName(idx, comp, code) == GroupName + "-" + r1;
    ParseGroupPrefix(r1);
    ParseFieldOf(idx, r2);
    ParseFieldOf(comp, code + ".wav");
    assert (code + ".wav")[..|code|] == code;
  }

  /** Different indices give different file names. */
  lemma FileNamesDistinct(i: nat, j: nat, ci: nat, cj: nat, codei: string, codej: string)
    requires i != j
    ensures FileName(i, ci, codei) != FileName(j, cj, codej)
  {
    FileNameRoundTrip(i, ci, codei);
    FileNameRoundTrip(j, cj, codej);
  }

  /** The CSV row of the `k`-th pool entry (file index `k + 1`) with its four draws. */
  function RowFor(k: nat, comp: int, draws: seq<bool>): CsvRow
  {
    var code := PairCode(draws);
    CsvRow(FileName(k + 1, comp, code), CenterFreq, comp, code)
  }

  /** The rows `row` makes of the first `n` pool entries and their draws, in pool order. */
  function RowsFor<T>(pool: seq<int>, pairDraws: seq<seq<bool>>, n: nat, row: (nat, int, seq<bool>) -> T): seq<T>
    requires n <= |pool| && n <= |pairDraws|
  {
    if n == 0 then [] else RowsFor(pool, pairDraws, n - 1, row) + [row(n - 1, pool[n - 1], pairDraws[n - 1])]
  }

  /** One more pass of the loop appends the next entry's row. */
  lemma RowsForStep<T>(pool: seq<int>, pairDraws: seq<seq<bool>>, k: nat, row: (nat, int, seq<bool>) -> T, x: T)
    requires k < |pool| && k < |pairDraws| && x == row(k, pool[k], pairDraws[k])
    ensures RowsFor(pool, pairDraws, k, row) + [x] == RowsFor(pool, pairDraws, k + 1, row)
  {
  }

  /** Row `k` is made from pool entry `k`. */
  lemma {:induction false} RowsForFacts<T>(pool: seq<int>, pairDraws: seq<seq<bool>>, n: nat, row: (nat, int, seq<bool>) -> T)
    requires n <= |pool| && n <= |pairDraws|
    ensures |RowsFor(pool, pairDraws, n, row)| == n
    ensures forall k :: 0 <= k < n ==> RowsFor(pool, pairDraws, n, row)[k] == row(k, pool[k], pairDraws[k])
  {
    if n > 0 {
      RowsForFacts(pool, pairDraws, n - 1, row);
    }
  }

  /** The CSV rows of `main`'s loop: `enumerate(freq_pool, 1)`, one row per pool entry. */
  method RecordRows(pool: seq<int>, pairDraws: seq<seq<bool>>) returns (rows: seq<CsvRow>)
    requires |pairDraws| == |pool| && forall k :: 0 <= k < |pool| ==> |pairDraws[k]| == 4
    ensures rows == RowsFor(pool, pairDraws, |pool|, RowFor)
  {
    rows := [];
    for k := 0 to |pool|
      invariant rows == RowsFor(pool, pairDraws, k, RowFor)
    {
      var row := RecordRow(k, pool[k], pairDraws[k]);
      RowsForStep(pool, pairDraws, k, RowFor, row);
      rows := rows + [row];
    }
  }

  /** One pass of the loop: synthesise the pair's audio, name the file, write the row. */
  method RecordRow(k: nat, comp: int, draws: seq<bool>) returns (row: CsvRow)
    requires |draws| == 4
    ensures row == RowFor(k, comp, draws)
  {
    var idx := k + 1;
    var audio, code := CreateAudioForPair(CenterFreq, comp, draws);
    var filename := FileName(idx, comp, code);
    row := CsvRow(filename, CenterFreq, comp, code);
  }

  /**
    `main` with its random draws given: the pool is a shuffle of the
    unshuffled pool, and there is one CSV row per pool entry, in pool order,
    the `k`-th named with index `k + 1`.
  */
  method Generate(shuffleDraws: seq<nat>, pairDraws: seq<seq<bool>>) returns (pool: seq<int>, rows: seq<CsvRow>)
    requires DrawsFit(shuffleDraws, NumPairs)
    requires |pairDraws| == NumPairs && forall k :: 0 <= k < NumPairs ==> |pairDraws[k]| == 4
    ensures pool == Shuffled(Unshuffled(), shuffleDraws)
    ensures multiset(pool) == multiset(Unshuffled())
    ensures |rows| == |pool|
    ensures forall k :: 0 <= k < |rows| ==> rows[k] == RowFor(k, pool[k], pairDraws[k])
  {
    var a := BuildPool();
    assert a[..] == Unshuffled();
    Shuffle(a, shuffleDraws);
    pool := a[..];
    ShuffleStepsPermutation(Unshuffled(), shuffleDraws, |shuffleDraws|);
    rows := RecordRows(pool, pairDraws);
    RowsForFacts(pool, pairDraws, |pool|, RowFor);
  }

  /** The comparison frequencies of the 5000 Hz part of the survey's answer key, in key order. */
  function KeyTargets(): (r: seq<int>)
    ensures |r| == |PartC|
  {
    seq(|PartC|, i requires 0 <= i < |PartC| => PartC[i].1 as int)
  }

  /** Draws under which the shuffle yields the answer key's order. */
  const KeyDraws: seq<nat> := [0, 6, 1, 2, 2, 4, 1, 1, 1]

  /** The pool after the first five swaps under `KeyDraws`. */
  lemma KeyFirstSwaps()
    ensures DrawsFit(KeyDraws, NumPairs)
    ensures ShuffleSteps(Unshuffled(), KeyDraws, 5) == [4940, 4952, 4964, 4976, 4970, 4946, 4982, 4988, 4958, 4994]
  {
    var u := Unshuffled();
    KeyFirstThreeSwaps();
    assert ShuffleSteps(u, KeyDraws, 4) == [4940, 4952, 4946, 4976, 4970, 4964, 4982, 4988, 4958, 4994];
  }

  /** The pool after the first three swaps under `KeyDraws`. */
  lemma KeyFirstThreeSwaps()
    ensures DrawsFit(KeyDraws, NumPairs)
    ensures ShuffleSteps(Unshuffled(), KeyDraws, 3) == [4940, 4952, 4982, 4976, 4970, 4964, 4946, 4988, 4958, 4994]
  {
    var u := Unshuffled();
    assert u == [4994, 4988, 4982, 4976, 4970, 4964, 4958, 4952, 4946, 4940];
    assert ShuffleSteps(u, KeyDraws, 1) == [4940, 4988, 4982, 4976, 4970, 4964, 4958, 4952, 4946, 4994];
    assert ShuffleSteps(u, KeyDraws, 2) == [4940, 4988, 4982, 4976, 4970, 4964, 4946, 4952, 4958, 4994];
  }

  /** The patterns of the 5000 Hz part of the survey's answer key are four-letter codes over {F, S}. */
  lemma KeyPatterns()
    ensures forall i :: 0 <= i < |PartC| ==> |PartC[i].0| == 4 && forall j :: 0 <= j < 4 ==> PartC[i].0[j] in "FS"
  {
    PartsWellFormed();
  }

  /**
    The order of the 5000 Hz part of the survey's answer key is what one run
    of the generator produces: a shuffle of the pool.
  */
  lemma KeyIsAShuffle()
    ensures DrawsFit(KeyDraws, NumPairs)
    ensures Shuffled(Unshuffled(), KeyDraws) == KeyTargets()
  {
    var u := Unshuffled();
    KeyFirstSwaps();
    assert ShuffleSteps(u, KeyDraws, 6) == [4940, 4952, 4964, 4976, 4970, 4946, 4982, 4988, 4958, 4994];
    assert ShuffleSteps(u, KeyDraws, 7) == [4940, 4976, 4964, 4952, 4970, 4946, 4982, 4988, 4958, 4994];
    assert ShuffleSteps(u, KeyDraws, 8) == [4940, 4964, 4976, 4952, 4970, 4946, 4982, 4988, 4958, 4994];
    assert ShuffleSteps(u, KeyDraws, 9) == [4940, 4964, 4976, 4952, 4970, 4946, 4982, 4988, 4958, 4994];
    assert KeyTargets() == [4940, 4964, 4976, 4952, 4970, 4946, 4982, 4988, 4958, 4994];
  }

  /** Hence the key's 5000 Hz targets are exactly the pool entries, each once. */
  lemma KeyMatchesPool()
    ensures multiset(KeyTargets()) == multiset(Unshuffled())
  {
    KeyIsAShuffle();
    ShuffleStepsPermutation(Unshuffled(), KeyDraws, |KeyDraws|);
  }
}
