/**
  The part the four statistics scripts (`shapiro-wilk.py`, `levene.py`,
  `anova.py`, `kruskal-wallis.py`) have in common, copied verbatim in each:
  the header clean-up, the three answer columns found by phrase, the
  tonal-language and musician classifiers, the four-way group label, and
  the per-band score columns with the band totals.
*/
module Demographics {
  import opened Wrappers
  import opened Strings
  import opened Records
  import opened Sorting
  import opened Survey

  // ---------------------------------------------------------------------
  // The scored table as pandas reads it
  // ---------------------------------------------------------------------

  /** A cell: missing (NaN), text, or an integer. */
  datatype Cell = Nan | Str(s: string) | Int(i: int)

  /** One respondent: column name to cell. */
  type Row = map<string, Cell>

  /** `row[col]`; a column the row has no entry for reads as NaN. */
  function CellOf(row: Row, col: string): Cell
  {
    if col in row then row[col] else Nan
  }

  /** `str(cell)`. */
  function Text(c: Cell): string
  {
    match c
    case Nan => "nan"
    case Str(s) => s
    case Int(i) => IntToString(i)
  }

  /** `c.replace('\xa0', ' ')`. */
  function ReplaceNbsp(c: string): (r: string)
    ensures |r| == |c|
    ensures forall i :: 0 <= i < |c| ==> r[i] == (if c[i] == '\U{00A0}' then ' ' else c[i])
    ensures '\U{00A0}' !in r
  {
    seq(|c|, i requires 0 <= i < |c| => if c[i] == '\U{00A0}' then ' ' else c[i])
  }

  /**
    `c.replace('\xa0', ' ').strip()`, applied to every header: the slice of
    the replaced header that is left after all whitespace at both ends is
    removed.
  */
  function NormalizeHeader(c: string): (r: string)
    ensures exists a: nat, b: nat :: a <= b <= |c| && r == ReplaceNbsp(c)[a..b]
              && (forall k :: 0 <= k < a ==> IsSpace(ReplaceNbsp(c)[k]))
              && (forall k :: b <= k < |c| ==> IsSpace(ReplaceNbsp(c)[k]))
    ensures '\U{00A0}' !in r
    ensures |r| > 0 ==> !IsSpace(r[0]) && !IsSpace(r[|r| - 1])
  {
    StripFacts(ReplaceNbsp(c));
    StripEnds(ReplaceNbsp(c));
    Strip(ReplaceNbsp(c))
  }

  /** The index of the first column whose lower-cased name contains `phrase`. */
  function FirstWith(cols: seq<string>, phrase: string): (r: Option<nat>)
    ensures r.Some? ==> r.value < |cols| && Contains(Lower(cols[r.value]), phrase)
    ensures r.Some? ==> forall j :: 0 <= j < r.value ==> !Contains(Lower(cols[j]), phrase)
    ensures r.None? ==> forall j :: 0 <= j < |cols| ==> !Contains(Lower(cols[j]), phrase)
  {
    if |cols| == 0 then None
    else if Contains(Lower(cols[0]), phrase) then Some(0)
    else match FirstWith(cols[1..], phrase)
      case None => None
      case Some(k) => Some(k + 1)
  }

  /** The classifier's three input columns. */
  datatype AnswerCols = AnswerCols(lang: string, music: string, years: string)

  /**
    `[c for c in df.columns if p in c.lower()][0]` for the three phrases;
    `None` when one of them matches no column (the script stops with an
    `IndexError`).
  */
  function FindAnswerCols(cols: seq<string>): (r: Option<AnswerCols>)
    ensures r.Some? <==> FirstWith(cols, "first language").Some? && FirstWith(cols, "what is it").Some?
                         && FirstWith(cols, "how long").Some?
    ensures r.Some? ==> r.value == AnswerCols(cols[FirstWith(cols, "first language").value],
                                              cols[FirstWith(cols, "what is it").value],
                                              cols[FirstWith(cols, "how long").value])
  {
    match (FirstWith(cols, "first language"), FirstWith(cols, "what is it"), FirstWith(cols, "how long"))
    case (Some(l), Some(m), Some(y)) => Some(AnswerCols(cols[l], cols[m], cols[y]))
    case _ => None
  }

  // ---------------------------------------------------------------------
  // Classifiers
  // ---------------------------------------------------------------------

  const TonalLanguages: seq<string> := ["chinese", "mandarin", "cantonese", "thai", "vietnamese"]

  const MusicianKeywords: seq<string> :=
    ["musician", "piano", "guitar", "violin", "drums", "flute", "singing", "playing", "composing",
     "composition", "mixing", "producing", "jazz", "recording", "performing", "ukulele", "vocalist",
     "teacher", "academic", "writing", "song"]

  /** The phrases that accept a years answer without reading a number. */
  const QualitativePhrases: seq<string> := ["many", "several", "more than", "10+", "15+"]

  /** `any(w in s for w in words)`. */
  function AnyIn(s: string, words: seq<string>): (r: bool)
    ensures r <==> exists i :: 0 <= i < |words| && Contains(s, words[i])
  {
    if |words| == 0 then false
    else if Contains(s, words[0]) then true
    else
      var rest := AnyIn(s, words[1..]);
      assert rest <==> exists i :: 1 <= i < |words| && Contains(s, words[i]) by {
        if rest {
          var i :| 0 <= i < |words[1..]| && Contains(s, words[1..][i]);
          assert Contains(s, words[i + 1]);
        }
      }
      rest
  }

  /** `classify_tonal`: the lower-cased language answer names one of the five tonal languages. */
  function ClassifyTonal(lang: string): (r: bool)
    ensures r <==> exists i :: 0 <= i < |TonalLanguages| && Contains(Lower(lang), TonalLanguages[i])
  {
    AnyIn(Lower(lang), TonalLanguages)
  }

  /**
    The years cascade of `classify_musician`, on the lower-cased answer: a
    month-only answer rejects; a qualitative phrase accepts; with "since"
    or "ago" the last number must be at least 3; with "age" the years from
    that starting age to an assumed age of 26 must be at least 3; otherwise
    (with "year"/"yr" or without) the first number must be at least 3. Every
    numeric branch rejects an answer without digits.
  */
  function YearsRule(y: string): (r: bool)
    ensures r == YearsDecision(y)
  {
    var nums := DigitRuns(y);
    if Contains(y, "month") && !Contains(y, "year") then false
    else if AnyIn(y, QualitativePhrases) then true
    else if Contains(y, "since") || Contains(y, "ago") then
      if |nums| > 0 then DigitsToNat(nums[|nums| - 1]) >= 3 else false
    else if Contains(y, "age") then
      if |nums| > 0 then 26 - DigitsToNat(nums[0]) >= 3 else false
    else if Contains(y, "year") || Contains(y, "yr") then
      if |nums| > 0 then DigitsToNat(nums[0]) >= 3 else false
    else
      if |nums| > 0 then DigitsToNat(nums[0]) >= 3 else false
  }

  /**
    `classify_musician`: the lower-cased music answer is not "nan" and names
    a keyword, the years answer is not "nan", and the years cascade accepts.
  */
  function ClassifyMusician(music: string, years: string): (r: bool)
    ensures r <==> Lower(music) != "nan" && AnyIn(Lower(music), MusicianKeywords) && Lower(years) != "nan"
                   && YearsDecision(Lower(years))
  {
    var m := Lower(music);
    if m == "nan" then false
    else if !AnyIn(m, MusicianKeywords) then false
    else
      var y := Lower(years);
      if y == "nan" then false else YearsRule(y)
  }

  /** The cascade without its duplicated last branch, the age test read as a bound on the age. */
  function YearsDecision(y: string): bool
  {
    var nums := DigitRuns(y);
    if Contains(y, "month") && !Contains(y, "year") then false
    else if AnyIn(y, QualitativePhrases) then true
    else if |nums| == 0 then false
    else if Contains(y, "since") || Contains(y, "ago") then DigitsToNat(nums[|nums| - 1]) >= 3
    else if Contains(y, "age") then DigitsToNat(nums[0]) <= 23
    else DigitsToNat(nums[0]) >= 3
  }

  /**
    The year/yr branch and the fallback agree, starting at age 26 minus 3
    means a starting age of at most 23, and no digits gives false in every
    numeric branch: the cascade is the shorter decision.
  */
  lemma YearsRuleDecision(y: string)
    ensures YearsRule(y) == YearsDecision(y)
  {
  }

  /** `classify_musician` rejects when any answer is missing or no keyword is named. */
  lemma MusicianNeedsAnswers(music: string, years: string)
    ensures ClassifyMusician(music, years) ==>
              Lower(music) != "nan" && AnyIn(Lower(music), MusicianKeywords) && Lower(years) != "nan"
    ensures ClassifyMusician(music, years) ==> YearsDecision(Lower(years))
  {
    if ClassifyMusician(music, years) {
      YearsRuleDecision(Lower(years));
    }
  }

  /**
    A years answer with no digit and no qualitative phrase never makes a
    musician, whatever else it says.
  */
  lemma UnparseableYears(music: string, years: string)
    requires NoDigits(Lower(years)) && !AnyIn(Lower(years), QualitativePhrases)
    ensures !ClassifyMusician(music, years)
  {
    YearsRuleDecision(Lower(years));
  }

  /** Saying "month" without "year" rejects before any other rule is tried. */
  lemma MonthOnlyRejects(music: string, years: string)
    requires Contains(Lower(years), "month") && !Contains(Lower(years), "year")
    ensures !ClassifyMusician(music, years)
  {
  }

  /** A qualitative phrase accepts a keyword-naming musician who is not month-only. */
  lemma QualitativeAccepts(music: string, years: string)
    requires Lower(music) != "nan" && AnyIn(Lower(music), MusicianKeywords) && Lower(years) != "nan"
    requires !(Contains(Lower(years), "month") && !Contains(Lower(years), "year"))
    requires AnyIn(Lower(years), QualitativePhrases)
    ensures ClassifyMusician(music, years)
  {
  }

  /** Lower-case text without capitals is its own lower case. */
  lemma LowerUnchanged(s: string)
    requires forall i :: 0 <= i < |s| ==> !('A' <= s[i] <= 'Z')
    ensures Lower(s) == s
  {
  }

  /** "piano" names a musician keyword. */
  lemma PianoIsKeyword()
    ensures Lower("piano") == "piano" && AnyIn("piano", MusicianKeywords)
  {
    LowerUnchanged("piano");
    assert StartsWith("piano", MusicianKeywords[1]);
  }

  /**
    "10+ months" is rejected although it holds the qualitative "10+": the
    month rule comes first.
  */
  lemma TenPlusMonths()
    ensures AnyIn(Lower("10+ months"), QualitativePhrases)
    ensures !ClassifyMusician("piano", "10+ months")
  {
    LowerUnchanged("10+ months");
    assert StartsWith("10+ months", "10+");
    assert Contains("10+ months", "month") by {
      assert OccursAt("10+ months", "month", 4);
      OccursContains("10+ months", "month", 4);
    }
    MissingChar("10+ months", "year", 0);
    assert Contains(Lower("10+ months"), QualitativePhrases[3]);
    MonthOnlyRejects("piano", "10+ months");
  }

  lemma SinceText()
    ensures Lower("since 2024") == "since 2024"
    ensures Contains("since 2024", "since") && !Contains("since 2024", "month")
  {
    LowerUnchanged("since 2024");
    assert StartsWith("since 2024", "since");
    MissingChar("since 2024", "month", 0);
  }

  lemma SinceLacksWords()
    ensures !Contains("since 2024", "many") && !Contains("since 2024", "several")
  {
    SinceLacksMany();
    SinceLacksSeveral();
  }

  lemma SinceLacksMany()
    ensures !Contains("since 2024", "many")
  {
    assert 'm' !in "since 2024";
    MissingChar("since 2024", "many", 0);
  }

  lemma SinceLacksSeveral()
    ensures !Contains("since 2024", "several")
  {
    assert 'v' !in "since 2024";
    MissingChar("since 2024", "several", 2);
  }

  lemma SinceLacksMore()
    ensures !Contains("since 2024", "more than")
  {
    MissingChar("since 2024", "more than", 0);
  }

  lemma SinceLacksPlus()
    ensures !Contains("since 2024", "10+") && !Contains("since 2024", "15+")
  {
    MissingChar("since 2024", "10+", 2);
    MissingChar("since 2024", "15+", 2);
  }

  lemma SinceNoPhrase()
    ensures !AnyIn("since 2024", QualitativePhrases)
  {
    SinceLacksWords();
    SinceLacksMore();
    SinceLacksPlus();
    forall i | 0 <= i < |QualitativePhrases| ensures !Contains("since 2024", QualitativePhrases[i]) {
      assert i in {0, 1, 2, 3, 4};
    }
  }

  lemma SinceRuns()
    ensures DigitRuns("since 2024") == ["2024"]
  {
    assert "since 2024" == "since " + "2024";
    DigitRunsAfterText("since ", "2024");
    DigitRunsOfDigits("2024");
  }

  lemma Value2024()
    ensures DigitsToNat("2024") == 2024
  {
    assert "2024"[..3] == "202" && "202"[..2] == "20" && "20"[..1] == "2" && "2"[..0] == "";
  }

  /**
    "since 2024" is accepted: the since/ago branch compares the number
    itself, here a calendar year, with 3.
  */
  lemma SinceYearAccepted()
    ensures ClassifyMusician("piano", "since 2024")
  {
    PianoIsKeyword();
    SinceText();
    SinceNoPhrase();
    SinceRuns();
    Value2024();
    SinceRule("since 2024");
  }

  /** Past the month and phrase rules, "since" reads the last number. */
  lemma SinceRule(y: string)
    requires !Contains(y, "month") && !AnyIn(y, QualitativePhrases) && Contains(y, "since")
    requires |DigitRuns(y)| > 0
    ensures YearsRule(y) == (DigitsToNat(DigitRuns(y)[|DigitRuns(y)| - 1]) >= 3)
  {
  }

  /** A string holding a tonal language name, lower- or upper-case, anywhere in a longer answer is tonal. */
  lemma TonalWithin(pre: string, lang: string, post: string)
    requires ClassifyTonal(lang)
    ensures ClassifyTonal(pre + lang + post)
  {
    var i :| 0 <= i < |TonalLanguages| && Contains(Lower(lang), TonalLanguages[i]);
    LowerConcat(pre + lang, post);
    LowerConcat(pre, lang);
    ContainsWithin(Lower(pre), Lower(lang), Lower(post), TonalLanguages[i]);
  }

  /** The classifier ignores case. */
  lemma TonalIgnoresCase(lang: string)
    ensures ClassifyTonal(Lower(lang)) == ClassifyTonal(lang)
  {
    LowerIdempotent(lang);
  }

  // ---------------------------------------------------------------------
  // Groups
  // ---------------------------------------------------------------------

  /** `('Tonal' if t else 'Non-Tonal') + ' | ' + ('Musician' if m else 'Non-Musician')`. */
  function GroupLabel(tonal: bool, musician: bool): (r: string)
    ensures r == GroupOrder[GroupIndex(tonal, musician)]
  {
    (if tonal then "Tonal" else "Non-Tonal") + " | " + (if musician then "Musician" else "Non-Musician")
  }

  /** The scripts' `group_order`. */
  const GroupOrder: seq<string> :=
    ["Tonal | Musician", "Tonal | Non-Musician", "Non-Tonal | Musician", "Non-Tonal | Non-Musician"]

  /** Where a pair of labels sits in `group_order`. */
  function GroupIndex(tonal: bool, musician: bool): (k: nat)
    ensures k < 4
  {
    (if tonal then 0 else 2) + (if musician then 0 else 1)
  }

  /**
    Every label is the entry of `group_order` at its index, so it is one of
    the four, and different classifications get different labels.
  */
  lemma GroupLabelInOrder(tonal: bool, musician: bool)
    ensures GroupOrder[GroupIndex(tonal, musician)] == GroupLabel(tonal, musician)
    ensures GroupLabel(tonal, musician) in GroupOrder
  {
    if tonal {
      if musician { LabelTonalMusician(); } else { LabelTonalNonMusician(); }
    } else {
      if musician { LabelNonTonalMusician(); } else { LabelNonTonalNonMusician(); }
    }
  }

  lemma LabelTonalMusician()
    ensures GroupLabel(true, true) == GroupOrder[0]
  {
  }

  lemma LabelTonalNonMusician()
    ensures GroupLabel(true, false) == GroupOrder[1]
  {
  }

  lemma LabelNonTonalMusician()
    ensures GroupLabel(false, true) == GroupOrder[2]
  {
  }

  lemma LabelNonTonalNonMusician()
    ensures GroupLabel(false, false) == GroupOrder[3]
  {
  }

  lemma GroupOrderDistinct()
    ensures Distinct(GroupOrder)
  {
  }

  lemma GroupLabelInjective(t0: bool, m0: bool, t1: bool, m1: bool)
    requires GroupLabel(t0, m0) == GroupLabel(t1, m1)
    ensures t0 == t1 && m0 == m1
  {
    GroupLabelInOrder(t0, m0);
    GroupLabelInOrder(t1, m1);
    GroupOrderDistinct();
  }

  /** The label of one respondent. */
  function RowGroup(row: Row, ac: AnswerCols): string
  {
    GroupLabel(ClassifyTonal(Text(CellOf(row, ac.lang))),
               ClassifyMusician(Text(CellOf(row, ac.music)), Text(CellOf(row, ac.years))))
  }

  /** `df['group']`: one label per respondent, each one of `group_order`. */
  function GroupColumn(rows: seq<Row>, ac: AnswerCols): (r: seq<string>)
    ensures |r| == |rows|
    ensures forall i :: 0 <= i < |rows| ==> r[i] == RowGroup(rows[i], ac) && r[i] in GroupOrder
  {
    var r := seq(|rows|, i requires 0 <= i < |rows| => RowGroup(rows[i], ac));
    assert forall i :: 0 <= i < |rows| ==> r[i] in GroupOrder by {
      forall i | 0 <= i < |rows| ensures r[i] in GroupOrder {
        GroupLabelInOrder(ClassifyTonal(Text(CellOf(rows[i], ac.lang))),
                          ClassifyMusician(Text(CellOf(rows[i], ac.music)), Text(CellOf(rows[i], ac.years))));
      }
    }
    r
  }

  /** `df[df['group'] == g][col]`: the values of the respondents in group `g`, in table order. */
  function Select(groups: seq<string>, values: seq<int>, g: string): (r: seq<int>)
    requires |groups| == |values|
    ensures |r| <= |values|
  {
    if |groups| == 0 then []
    else
      var n := |groups| - 1;
      Select(groups[..n], values[..n], g) + (if groups[n] == g then [values[n]] else [])
  }

  /** How many respondents carry label `g`. */
  function Count(groups: seq<string>, g: string): nat
  {
    if |groups| == 0 then 0 else Count(groups[..|groups| - 1], g) + (if groups[|groups| - 1] == g then 1 else 0)
  }

  /** A group's data has one value per respondent in it. */
  lemma {:induction false} SelectCount(groups: seq<string>, values: seq<int>, g: string)
    requires |groups| == |values|
    ensures |Select(groups, values, g)| == Count(groups, g)
  {
    if |groups| > 0 {
      var n := |groups| - 1;
      SelectCount(groups[..n], values[..n], g);
    }
  }

  /** The four groups split the respondents: their sizes add up to the table's length. */
  lemma {:induction false} GroupsPartition(groups: seq<string>)
    requires forall i :: 0 <= i < |groups| ==> groups[i] in GroupOrder
    ensures Count(groups, GroupOrder[0]) + Count(groups, GroupOrder[1]) + Count(groups, GroupOrder[2])
            + Count(groups, GroupOrder[3]) == |groups|
  {
    if |groups| > 0 {
      GroupsPartition(groups[..|groups| - 1]);
      GroupOrderDistinct();
    }
  }

  // ---------------------------------------------------------------------
  // Band columns and totals
  // ---------------------------------------------------------------------

  /** The tags of the three frequency bands. */
  const BandTags: seq<string> := ["(200Hz)", "(1000Hz)", "(5000Hz)"]

  /**
    `int(re.search(r'(\d+)', c).group(1))`: the first digit run of the name;
    -1 when it has none (the search would fail, which no band column allows).
  */
  function FirstRun(c: string): int
  {
    var runs := DigitRuns(c);
    if |runs| > 0 then DigitsToNat(runs[0]) else -1
  }

  /** `sorted([c for c in df.columns if tag in c], key=FirstRun)`. */
  function BandColumns(cols: seq<string>, tag: string): (r: seq<string>)
    ensures multiset(r) == multiset(Tagged(cols, tag))
    ensures SortedBy(r, FirstRun)
  {
    SortByFacts(Tagged(cols, tag), FirstRun);
    SortBy(Tagged(cols, tag), FirstRun)
  }

  /**
    The band's columns are exactly the columns carrying the tag, each as often
    as in the table, ordered by first number ascending (ties in table order);
    every one of them has a number, since the tag itself holds one.
  */
  lemma BandColumnsFacts(cols: seq<string>, tag: string)
    requires tag in BandTags
    ensures multiset(BandColumns(cols, tag)) == multiset(Tagged(cols, tag))
    ensures SortedBy(BandColumns(cols, tag), FirstRun)
    ensures forall k :: WithKey(BandColumns(cols, tag), FirstRun, k) == WithKey(Tagged(cols, tag), FirstRun, k)
    ensures forall c :: c in BandColumns(cols, tag) ==> |DigitRuns(c)| > 0
  {
    SortByFacts(Tagged(cols, tag), FirstRun);
    BandColumnsNumbered(cols, tag);
  }

  lemma BandColumnsNumbered(cols: seq<string>, tag: string)
    requires tag in BandTags
    requires multiset(BandColumns(cols, tag)) == multiset(Tagged(cols, tag))
    ensures forall c :: c in BandColumns(cols, tag) ==> |DigitRuns(c)| > 0
  {
    assert IsDigit(tag[1]);
    forall c | c in BandColumns(cols, tag) ensures |DigitRuns(c)| > 0 {
      assert c in multiset(Tagged(cols, tag));
      DigitRunsOfContains(c, tag, 1);
    }
  }

  /** What a cell adds to a row sum: its integer; NaN is skipped; text adds nothing. */
  function CellValue(c: Cell): int
  {
    if c.Int? then c.i else 0
  }

  function SumOf(row: Row, cs: seq<string>): int
  {
    if |cs| == 0 then 0 else CellValue(CellOf(row, cs[0])) + SumOf(row, cs[1..])
  }

  /** No cell of the columns holds text. */
  predicate Numeric(row: Row, cs: seq<string>)
  {
    forall c :: c in cs ==> !CellOf(row, c).Str?
  }

  /**
    `df[cs].sum(axis=1)` for one row: the sum of its numbers, NaN skipped;
    `None` when a cell holds text, which pandas cannot add.
  */
  function RowTotal(row: Row, cs: seq<string>): (r: Option<int>)
    ensures r.Some? <==> forall c :: c in cs ==> !CellOf(row, c).Str?
    ensures CountsIn(row, cs) ==> r.Some? && 0 <= r.value <= 4 * |cs|
  {
    SumOfBounds(row, cs);
    if Numeric(row, cs) then Some(SumOf(row, cs)) else None
  }

  lemma {:induction false} SumOfConcat(row: Row, a: seq<string>, b: seq<string>)
    ensures SumOf(row, a + b) == SumOf(row, a) + SumOf(row, b)
  {
    if |a| > 0 {
      assert (a + b)[1..] == a[1..] + b;
      SumOfConcat(row, a[1..], b);
    } else {
      assert a + b == b;
    }
  }

  /** Taking out the `j`-th column: its cell leaves the sum, its name the multiset. */
  lemma SumOfRemove(row: Row, b: seq<string>, j: nat)
    requires j < |b|
    ensures SumOf(row, b) == CellValue(CellOf(row, b[j])) + SumOf(row, b[..j] + b[j + 1..])
    ensures multiset(b) == multiset{b[j]} + multiset(b[..j] + b[j + 1..])
  {
    assert b == b[..j] + ([b[j]] + b[j + 1..]);
    SumOfConcat(row, b[..j], [b[j]] + b[j + 1..]);
    SumOfConcat(row, b[..j], b[j + 1..]);
    assert ([b[j]] + b[j + 1..])[1..] == b[j + 1..];
  }

  /** Taking the same element out of two equal multisets leaves equal multisets. */
  lemma MultisetTail(a: seq<string>, b: seq<string>, j: nat)
    requires |a| > 0 && j < |b| && b[j] == a[0] && multiset(a) == multiset(b)
    ensures multiset(a[1..]) == multiset(b[..j] + b[j + 1..])
  {
    var x, rest := a[0], b[..j] + b[j + 1..];
    assert a == [x] + a[1..];
    assert b == b[..j] + [x] + b[j + 1..];
    assert multiset(a) == multiset{x} + multiset(a[1..]);
    assert multiset(b) == multiset(b[..j]) + multiset{x} + multiset(b[j + 1..]);
    assert multiset(rest) == multiset(b[..j]) + multiset(b[j + 1..]);
    assert multiset(a[1..]) == multiset(a) - multiset{x};
    assert multiset(rest) == multiset(b) - multiset{x};
  }

  /** A row sum does not depend on the order of the columns. */
  lemma {:induction false} SumOfPermutation(row: Row, a: seq<string>, b: seq<string>)
    requires multiset(a) == multiset(b)
    ensures SumOf(row, a) == SumOf(row, b)
    decreases |a|
  {
    if |a| == 0 {
      assert |b| == |multiset(b)| == 0;
    } else {
      var x := a[0];
      assert x in multiset(b);
      var j := FirstIndex(b, x);
      var rest := b[..j] + b[j + 1..];
      SumOfRemove(row, b, j);
      MultisetTail(a, b, j);
      SumOfPermutation(row, a[1..], rest);
    }
  }

  /** The score cells of a row are judge counts: integers from 0 to 4. */
  predicate CountsIn(row: Row, cs: seq<string>)
  {
    forall c :: c in cs ==> CellOf(row, c).Int? && 0 <= CellOf(row, c).i <= 4
  }

  lemma {:induction false} SumOfBounds(row: Row, cs: seq<string>)
    ensures CountsIn(row, cs) ==> 0 <= SumOf(row, cs) <= 4 * |cs|
  {
    if |cs| > 0 && CountsIn(row, cs) {
      assert cs[0] in cs;
      SumOfBounds(row, cs[1..]);
    }
  }

  /** `total_200`, `total_1000`, `total_5000` of one respondent. */
  function BandTotal(row: Row, cols: seq<string>, tag: string): (r: Option<int>)
    ensures r == RowTotal(row, Tagged(cols, tag))
  {
    RowTotalPermutation(row, BandColumns(cols, tag), Tagged(cols, tag));
    RowTotal(row, BandColumns(cols, tag))
  }

  /** A row total does not depend on the order of the columns. */
  lemma RowTotalPermutation(row: Row, a: seq<string>, b: seq<string>)
    requires multiset(a) == multiset(b)
    ensures RowTotal(row, a) == RowTotal(row, b)
  {
    SumOfPermutation(row, a, b);
    forall c ensures c in a <==> c in b {
      assert c in a <==> c in multiset(a);
      assert c in b <==> c in multiset(b);
    }
  }

  /**
    A band total is the sum of the row's cells over exactly the columns with
    the tag (the sort does not matter), and with judge counts it lies between
    0 and 4 per column.
  */
  lemma BandTotalFacts(row: Row, cols: seq<string>, tag: string)
    requires tag in BandTags
    ensures BandTotal(row, cols, tag) == RowTotal(row, Tagged(cols, tag))
    ensures CountsIn(row, Tagged(cols, tag)) ==>
              BandTotal(row, cols, tag).Some? && 0 <= BandTotal(row, cols, tag).value <= 4 * |Tagged(cols, tag)|
  {
    BandColumnsFacts(cols, tag);
    RowTotalPermutation(row, BandColumns(cols, tag), Tagged(cols, tag));
    if CountsIn(row, Tagged(cols, tag)) {
      SumOfBounds(row, Tagged(cols, tag));
    }
  }

  /** The band total column; `None` when some row cannot be summed. */
  function TotalColumn(rows: seq<Row>, cols: seq<string>, tag: string): (r: Option<seq<int>>)
    ensures r.Some? <==> forall i :: 0 <= i < |rows| ==> BandTotal(rows[i], cols, tag).Some?
    ensures r.Some? ==> |r.value| == |rows| && forall i :: 0 <= i < |rows| ==> r.value[i] == BandTotal(rows[i], cols, tag).value
  {
    if forall i :: 0 <= i < |rows| ==> BandTotal(rows[i], cols, tag).Some? then
      Some(seq(|rows|, i requires 0 <= i < |rows| => BandTotal(rows[i], cols, tag).value))
    else None
  }

  // ---------------------------------------------------------------------
  // The prepared table
  // ---------------------------------------------------------------------

  /** The bands' names as the result tables print them, in table order (`freq_cols`). */
  const BandNames: seq<string> := ["200Hz", "1000Hz", "5000Hz"]

  /** What a script computes before its tests: the group column and one total column per band. */
  datatype Prepared = Prepared(groups: seq<string>, totals: seq<seq<int>>)

  /** `bands` total columns, each one value per respondent, and every group one of the four. */
  predicate Shaped(p: Prepared, bands: nat)
  {
    |p.totals| == bands
    && (forall b :: 0 <= b < bands ==> |p.totals[b]| == |p.groups|)
    && (forall i :: 0 <= i < |p.groups| ==> p.groups[i] in GroupOrder)
  }

  /** The total columns of the given bands; `None` when one cannot be summed. */
  function TotalColumns(rows: seq<Row>, cols: seq<string>, tags: seq<string>): (r: Option<seq<seq<int>>>)
    ensures r.Some? <==> forall b :: 0 <= b < |tags| ==> TotalColumn(rows, cols, tags[b]).Some?
    ensures r.Some? ==> |r.value| == |tags|
    ensures r.Some? ==> forall b :: 0 <= b < |tags| ==> r.value[b] == TotalColumn(rows, cols, tags[b]).value
  {
    if forall b :: 0 <= b < |tags| ==> TotalColumn(rows, cols, tags[b]).Some? then
      Some(seq(|tags|, b requires 0 <= b < |tags| => TotalColumn(rows, cols, tags[b]).value))
    else None
  }

  /** `df.columns = [c.replace('\xa0', ' ').strip() for c in df.columns]`. */
  function CleanColumns(raw: seq<string>): (r: seq<string>)
    ensures |r| == |raw|
    ensures forall i :: 0 <= i < |raw| ==> r[i] == NormalizeHeader(raw[i])
  {
    seq(|raw|, i requires 0 <= i < |raw| => NormalizeHeader(raw[i]))
  }

  /**
    The classification and the band totals of a table whose header list as
    read is `raw`; the columns are looked up by their cleaned names. `None`
    when an answer column is missing or a band cannot be summed; otherwise one group label (one of the four) and one total per
    band for every respondent.
  */
  function Prepare(raw: seq<string>, rows: seq<Row>, tags: seq<string>): (r: Option<Prepared>)
    ensures r.Some? <==> FindAnswerCols(CleanColumns(raw)).Some? && TotalColumns(rows, CleanColumns(raw), tags).Some?
    ensures r.Some? ==> Shaped(r.value, |tags|) && |r.value.groups| == |rows|
    ensures r.Some? ==> forall i :: 0 <= i < |rows| ==> r.value.groups[i] == RowGroup(rows[i], FindAnswerCols(CleanColumns(raw)).value)
    ensures r.Some? ==> forall b, i :: 0 <= b < |tags| && 0 <= i < |rows| ==>
                          r.value.totals[b][i] == BandTotal(rows[i], CleanColumns(raw), tags[b]).value
  {
    var cols := CleanColumns(raw);
    match (FindAnswerCols(cols), TotalColumns(rows, cols, tags))
    case (Some(ac), Some(totals)) => Some(Prepared(GroupColumn(rows, ac), totals))
    case _ => None
  }

  /** `[df[df['group'] == g][col] for g in group_order]`: each group's data, in `group_order`. */
  function GroupsData(groups: seq<string>, values: seq<int>): (r: seq<seq<int>>)
    requires |groups| == |values|
    ensures |r| == 4 && forall g :: 0 <= g < 4 ==> r[g] == Select(groups, values, GroupOrder[g])
  {
    seq(4, g requires 0 <= g < 4 => Select(groups, values, GroupOrder[g]))
  }

  /** When every label is one of the four, the groups' data together hold every respondent. */
  lemma GroupsDataCover(groups: seq<string>, values: seq<int>)
    requires |groups| == |values|
    requires forall i :: 0 <= i < |groups| ==> groups[i] in GroupOrder
    ensures |GroupsData(groups, values)[0]| + |GroupsData(groups, values)[1]| + |GroupsData(groups, values)[2]|
            + |GroupsData(groups, values)[3]| == |groups|
  {
    GroupsPartition(groups);
    SelectCount(groups, values, GroupOrder[0]);
    SelectCount(groups, values, GroupOrder[1]);
    SelectCount(groups, values, GroupOrder[2]);
    SelectCount(groups, values, GroupOrder[3]);
  }

  /**
    Every total a script tests is the respondent's sum over exactly the
    columns carrying that band's tag, whatever their order in the table.
  */
  lemma PreparedSums(raw: seq<string>, rows: seq<Row>, tags: seq<string>)
    requires forall b :: 0 <= b < |tags| ==> tags[b] in BandTags
    requires Prepare(raw, rows, tags).Some?
    ensures forall b, i :: 0 <= b < |tags| && 0 <= i < |rows| ==>
              RowTotal(rows[i], Tagged(CleanColumns(raw), tags[b])).Some?
              && Prepare(raw, rows, tags).value.totals[b][i] == RowTotal(rows[i], Tagged(CleanColumns(raw), tags[b])).value
  {
    forall b, i | 0 <= b < |tags| && 0 <= i < |rows|
      ensures RowTotal(rows[i], Tagged(CleanColumns(raw), tags[b])).Some?
              && Prepare(raw, rows, tags).value.totals[b][i] == RowTotal(rows[i], Tagged(CleanColumns(raw), tags[b])).value
    {
      BandTotalFacts(rows[i], CleanColumns(raw), tags[b]);
    }
  }
}
