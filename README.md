# Pitch-discrimination survey: scoring, grouping and stimulus key, in Dafny

This project models the deterministic core of a listening experiment.
Participants hear clips of four tone pairs and choose, pair by pair, the tone
they think is higher. The project covers four parts:

- **Scoring** (`judge.py`, the scoring half of `plot.py`). The survey export
  is a list of header strings plus one row per respondent. The scorer goes
  through these steps:
  1. It finds the "Audio …" block headers, deduplicated, in first-seen order.
  2. It notes which option (`First`, `Second` or `Equal`) of each
     `Pair n-…` column is marked `1`, under the block being scanned. A later
     mark overwrites an earlier one.
  3. It pairs the blocks in order with a fixed 30-entry answer key.
  4. It counts wrong pairs per block into a column named
     `"{|f - c|} ({c}Hz)"`.
  5. It puts the columns in order: metadata first, then the 200, 1000 and
     5000 Hz groups, each by decreasing delta.

  `plot.py` scores the same way and sorts each group by increasing delta.
  It then labels its bars with the leading numbers.
- **Translation** (`transfer.py`). The same header scan renames the Chinese
  metadata columns and keeps the first column matching each demographic
  question. Each marked option is merged into a column
  `"{block} - Pair {n}"`.
- **Grouping and the statistics tables** (`shapiro-wilk.py`, `levene.py`,
  `anova.py`, `kruskal-wallis.py`). Each script:
  - cleans the headers;
  - finds the language, instrument and duration answers;
  - classifies each respondent as tonal or not, and as musician or not;
  - labels the respondent with one of four groups;
  - totals each frequency band.

  It then builds its table rows:
  - `shapiro-wilk.py`: normality rows for each (band, group) with at least
    three respondents, with the `*` and red-shading rules;
  - `levene.py`: Levene rows with df1/df2 and the Equal/Unequal verdict;
  - `anova.py`: ANOVA rows for 1000 and 5000 Hz;
  - `kruskal-wallis.py`: the Kruskal-Wallis row with its clamped effect size.
- **Stimulus generation** (`make_audio_record.py`).
  - The pool of comparison frequencies is `5000 - 6(i+1)` for `i` in `0..9`,
    shuffled by Fisher-Yates.
  - Each clip consists of four pairs, each laid out as blank, tone, blank,
    tone and four blanks, with sample counts in integers.
  - Each clip has an `F`/`S` answer code, where `F` means the first tone is
    the higher one.
  - Each clip gets the file name `5000-{idx}-{comp}-{code}.wav` and a CSV row.

The modules follow the program's structure:
- `Strings`, `Records`, `Sorting`, `Wrappers` and `Survey` hold what the
  scripts share: Python string operations, insertion-ordered dicts, the
  stable key sort, and the header scan.
- `AnswerKey`, `Judge`, `Plot` and `Transfer` cover scoring and translation.
- `Demographics`, `Normality`, `Levene`, `Anova` and `Kruskal` cover
  grouping and the statistics tables.
- `Stimulus` covers stimulus generation.

The scripts' loops are methods with loop invariants, and the in-place
shuffle is a method on an `array`. Each method is proved equal to a
specification function, and the lemmas state what the scripts promise about
those functions.

Modelling decisions:
- A cell pandas leaves empty reads as the text `"nan"`.
- `\d` is an ASCII digit. `lower()` folds ASCII letters. `strip()` removes
  Python's whitespace characters.
- `re.search(r'Pair (\d+)-(First|Second|Equal)')` is a token parser. Its
  digit run is always maximal: a shorter run would be followed by a digit,
  not `-`.
- The library statistics (`stats.kstest`, `stats.shapiro`, `stats.levene`,
  `stats.kruskal`, `pg.anova`) and the random choices are function or
  sequence parameters.

Two rules of the scripts are easy to misread:
- For "since <number>", the musician rule compares the number itself with 3.
  It does not compute the elapsed years, so `"since 2024"` classifies as a
  musician (`Demographics.SinceYearAccepted`).
- Levene's verdict is `Unequal` for `p <= 0.05`, but the p cell is
  shaded only for `p < 0.05`. At exactly `p == 0.05` the row reads
  `Unequal` and is not shaded (`Levene.HighlightMeansUnequal`).

## Model

| member | source | states |
|---|---|---|
| AnswerKey.BuildKeys | judge.py:12-33 | the combined key has 30 entries: entries 0-9 are part A at centre 200, 10-19 part B at 1000, 20-29 part C at 5000, each in table order |
| AnswerKey.WithCenter | judge.py:31-33 | one key entry per table pair, in order, all with the given centre |
| AnswerKey.CombinedKeysFacts | judge.py:12-33 | 30 entries; the given centres by index range; every pattern has 4 letters over {F, S}; every delta is positive; the 30 column labels are pairwise distinct |
| AnswerKey.PartsWellFormed | judge.py:12-25 | every pattern of the three tables has 4 letters over {F, S}, and every target differs from its centre |
| AnswerKey.PositionsA | judge.py:12-15 | the 200 Hz deltas identify their entry: the inverse table returns each entry's index |
| AnswerKey.PositionsB | judge.py:17-20 | the same for the 1000 Hz deltas, at indices 10-19 |
| AnswerKey.PositionsC | judge.py:22-25 | the same for the 5000 Hz deltas, at indices 20-29 |
| AnswerKey.Delta | judge.py:116 | the delta is the absolute difference between target and centre |
| AnswerKey.LabelLeadingDigits | judge.py:120 | the leading digit run of `"{delta} ({c}Hz)"` is the delta's decimal text |
| AnswerKey.LabelInjective | judge.py:120 | two equal labels have the same delta and the same centre |
| AnswerKey.LabelHasTag | judge.py:154-156 | a label contains `"({c}Hz)"` exactly when `c` is its own centre |
| AnswerKey.TagPrefix | judge.py:154-156 | one band tag cannot start another band tag unless their numbers are equal |
| Survey.ChoiceName | judge.py:102 | an option's name is one of First, Second, Equal |
| Survey.DataRows | judge.py:78 | `df.iloc[1:]`: all rows after the first, in order; an empty frame gives none |
| Survey.PerDataRow | transfer.py:56-97 | one result per data row, in order, row 0 never included |
| Survey.BlockNamesMembers | judge.py:68-70 | a name is collected exactly when some header, stripped, starts with "Audio" and lacks "Pair" |
| Survey.DiscoverBlocks | judge.py:66-73 | the `seen` loop yields the first-seen deduplication of the block headers |
| Survey.DiscoveredBlocks | judge.py:66-73 | the discovered blocks are duplicate-free, are exactly the block headers, and keep first-appearance order |
| Survey.FirstContaining | judge.py:60-63 | the inner loop finds the first header containing the keyword, or reports that none does |
| Survey.DemoCols | judge.py:58-63 | at most one column per keyword; every found column is a header containing one of the keywords |
| Survey.FindDemoCols | transfer.py:47-52 | the keyword loop computes the specification list, of at most 7 existing headers |
| Survey.DemoColsFirstMatch | transfer.py:48-52 | each keyword adds one column, the first header containing it, or nothing when no header does |
| Survey.TranslatedFacts | transfer.py:63-66 | the renamed metadata holds exactly the English names of the present Chinese headers, each with that header's cell |
| Survey.PresentTargetsDistinct | transfer.py:15-30 | distinct English names give a duplicate-free list of renamed columns |
| Survey.CopyMetadata | judge.py:85-87 | the metadata loop computes the renamed-metadata specification |
| Survey.CopyColumns | judge.py:88-90 | the demographic loop computes the copied-columns specification |
| Survey.CopiedColumnsFacts | judge.py:88-90 | each copied column holds its cell, other keys keep their values, the key set grows by exactly the copied columns, and distinct keys stay distinct |
| Survey.CopiedColumnsKeys | judge.py:88-90 | copying appends each new column name once, in dict insertion order |
| Survey.AddKeysFacts | judge.py:88-90 | the inserted keys are the old keys plus the copied columns, with no duplicates |
| Survey.SearchPairFinds | judge.py:102 | the search finds the first `Pair <digits>-<option>` token, reading the whole digit run and the option |
| Survey.SearchPairFrom | judge.py:102 | the scan returns the first parsing token at or after a position, or none if there is none; from position 0 this is the leftmost match `re.search` reports |
| Survey.PairTokenOf | judge.py:102 | `Pair d-Option…` parses to the digits `d` and the option when `d` is a maximal digit run |
| Survey.LastBlock | judge.py:94-99 | `current_block` is None until the first block header, and afterwards is the last block header seen |
| Survey.SelectionAt | judge.py:96-108 | a column records a selection iff it is not a block header, contains the phrase, follows a block, holds a Pair token, and its stripped cell is `'1'`; so pair columns before the first Audio header record nothing |
| Survey.Selections | judge.py:95-108 | one selection slot per column, in column order |
| Survey.RecordLastWins | judge.py:108 | a key is recorded iff some column selects it, and its value is the option of the last such column |
| Survey.Tagged | judge.py:154-156 | the comprehension keeps exactly the columns containing the tag |
| Judge.ExtractResponses | judge.py:93-108 | the column loop builds the last-write-wins record of the row's selections |
| Judge.ExtractColumn | judge.py:96-108 | one column updates `current_block` and the response dict exactly as the selection at that column says |
| Judge.ResponsesLastWins | judge.py:107-108 | a `(block, pair)` answer exists iff some column selected it, and it is the option of the last such column |
| Judge.Correct | judge.py:131-136 | an answer is right iff the pattern letter is F with First or S with Second; Equal and no answer are always wrong |
| Judge.ErrorsUpToFacts | judge.py:125-139 | after n pairs the error count is at most n; it is 0 iff all are right and n iff all are wrong |
| Judge.ErrorCountFacts | judge.py:125-139 | a block's error count lies in [0,4]; it is 0 iff all four pairs are right and 4 iff none is |
| Judge.UnansweredBlock | judge.py:128 | a block with no recorded answer scores 4 errors |
| Judge.CountErrors | judge.py:125-139 | the `errors` loop computes the block's error count, at most 4 |
| Judge.KeyLabels | judge.py:120 | one label per key entry, in order |
| Judge.ScoredCount | judge.py:111-112 | the scored prefix is as long as the shorter of the block list and the key |
| Judge.ScoreRecord | judge.py:111-142 | the scoring loop with its `break` equals the scoring specification over that prefix |
| Judge.ScoreOne | judge.py:114-142 | one iteration puts the block's error count under its label, starting from 0 when the label is new |
| Judge.ScoreBlockFresh | judge.py:122-142 | on a new label the key list grows by that label, whose value is the block's count; other keys are unchanged |
| Judge.ScoreBlockOther | judge.py:122-142 | scoring a block changes no other column |
| Judge.ScoredFacts | judge.py:111-142 | with distinct new labels, the labels of the scored blocks are appended in order, each holds its own block's count, and other keys are unchanged |
| Judge.ScoredKeys | judge.py:111-142 | the scored labels are appended to the record's keys in block order |
| Judge.ScoredCounts | judge.py:111-142 | each scored label holds exactly its own block's error count |
| Judge.ScoredKeeps | judge.py:111-142 | keys that are not scored labels keep their values |
| Judge.ScoredIgnoresLaterBlocks | judge.py:111-112 | blocks beyond the scored prefix, such as a 31st block, do not affect the record |
| Judge.ScoredValues | judge.py:116-142 | each of the scored key labels holds its block's count, which lies in [0,4] |
| Judge.KeyLabelsFacts | judge.py:116-120 | the 30 labels are pairwise distinct, and none looks like a metadata or demographic name |
| Judge.KeyLabelsDistinct | judge.py:116-120 | the 30 `(delta, centre)` labels are pairwise distinct |
| Judge.KeyLabelsNative | judge.py:120 | no label contains a character that occurs only in metadata or demographic names |
| Judge.ScoreColumnGroups | judge.py:154-161 | labels 0-9 fall in the 200 Hz group, 10-19 in 1000 Hz and 20-29 in 5000 Hz, each in exactly one group, and `get_delta_num` reads back its delta |
| Judge.DeltaNumOfLabel | judge.py:159-161 | `get_delta_num` of a score label is its delta |
| Judge.DeltaNumOfDigits | judge.py:159-161 | `get_delta_num` reads the whole leading digit run as a number |
| Judge.DeltaNumNoDigits | judge.py:159-161 | a name without a leading digit gets 9999 |
| Judge.LabelGroup | judge.py:154-156 | a label is in the 200, 1000 or 5000 Hz group iff its centre is that frequency |
| Judge.CombinedKeysReadable | judge.py:129 | every pattern has the four letters the pair loop reads |
| Judge.LabelChars | judge.py:120 | a label uses only digits, space, parentheses and the letters of "Hz" |
| Judge.ForeignNotLabel | judge.py:120 | a name with a character no label uses is not a label |
| Judge.ContainsForeign | judge.py:61 | a header containing such a keyword itself contains such a character |
| Judge.DemoKeywordsForeign | judge.py:55-57 | every demographic keyword contains a character no label uses |
| Judge.MetadataTargetsFacts | judge.py:44-52 | the English metadata names are pairwise distinct, never look like labels, and contain no `z` |
| Judge.MetadataTargetsNotDemo | judge.py:44-57 | no English metadata name contains a demographic keyword |
| Judge.MetadataTargetsNotDemoCols | judge.py:44-63 | no English metadata name is ever found as a demographic column |
| Judge.MetadataTargetsDistinct | judge.py:44-52 | the 14 English metadata names are pairwise distinct |
| Judge.MetadataTargetsForeign | judge.py:44-52 | every English metadata name uses a character no label uses |
| Judge.MetadataTargetsNoZ | judge.py:44-52 | no English metadata name contains `z`, so none holds an `Hz)` tag |
| Judge.MetadataUntagged | judge.py:169-170 | a name without `z` carries no group tag |
| Judge.MetaRecordFacts | judge.py:84-90 | the metadata part of a record has duplicate-free keys that never look like labels; demographic columns hold their cells; every present metadata header's cell is held under its English name |
| Judge.Lift | judge.py:87 | copying text into the record keeps the keys and wraps each value as text |
| Judge.LiftGet | judge.py:90 | looking up a copied column gives its text |
| Judge.RowColumnsFacts | judge.py:82-142 | a record's keys are the metadata columns followed by the scored labels, without duplicates |
| Judge.RowRecordScores | judge.py:110-142 | in every record, each scored label holds the error count of block i under key entry i, which lies in [0,4] |
| Judge.RowRecordMeta | judge.py:84-90 | scoring leaves the metadata part of the record intact |
| Judge.ProcessRow | judge.py:81-144 | the per-row body computes the record specification |
| Judge.ProcessRows | judge.py:78-144 | one record per data row, in order, row 0 excluded |
| Judge.ProcessSurveyScoringGrouped | judge.py:5-176 | the records are the per-row specification, and the columns are the final order of the frame's columns |
| Judge.SurveyColumns | judge.py:146-151 | with at least one data row, the frame's columns are the record keys, with no duplicates |
| Judge.SurveyColumnsOneTag | judge.py:151-170 | when no demographic column found carries two centre tags, every result column carries at most one; the renamed metadata carry none in any case |
| Judge.PresentTargetsUntagged | judge.py:169-170 | renamed metadata columns carry no group tag |
| Judge.MetaColumnsOneTag | judge.py:169-170 | when no demographic column found carries two centre tags, no metadata or demographic column does |
| Judge.ScoreLabelsOneTag | judge.py:154-156 | every scored label carries exactly one group tag |
| Judge.OrderColumns | judge.py:151-175 | the sorting section computes the final-order specification |
| Judge.FinalOrderPermutation | judge.py:151-173 | when no column carries two centre tags, the final column list is a permutation of the result columns, grouped as metadata, 200, 1000, 5000 |
| Judge.FinalOrderGroups | judge.py:154-173 | when no column carries two centre tags, non-score columns keep their relative order and each group is its stably sorted column list, in decreasing delta |
| Judge.SortDescending | judge.py:164-166 | `sort(key=get_delta_num, reverse=True)` leaves deltas non-increasing |
| Judge.ArrangedPermutation | judge.py:169-173 | concatenating the four groups gives a permutation, in group order |
| Judge.ArrangedSelect | judge.py:169-173 | each group is read back unchanged from the concatenation |
| Judge.PartitionFour | judge.py:154-170 | the four groups split the result columns exactly |
| Plot.CountErr | plot.py:73-79 | the `err` loop computes the block's error count, at most 4 |
| Plot.AddBlock | plot.py:68-80 | one iteration adds the block's errors under its label |
| Plot.ScoreRespondent | plot.py:47-80 | the per-row body computes the judge record's score part |
| Plot.ScoreSurvey | plot.py:43-83 | one score record per data row, in order |
| Plot.PlotRecordFacts | plot.py:66-80 | a plot record's keys are the scored labels; each value equals the scorer's, and lies in [0,4] |
| Plot.PlotColumns | plot.py:83-99 | the frame's columns are the scored labels in key order |
| Plot.GetColsSorted | plot.py:94-97 | the sort succeeds iff every tagged column has a leading integer |
| Plot.LeadInt | plot.py:96 | the sort key of `get_cols_sorted` is a non-negative number whose decimal text is the column's leading digit run, when that run has no leading zero |
| Plot.GetColsSortedFacts | plot.py:94-97 | the result holds exactly the tagged columns, as a permutation, sorted by leading integer ascending, ties in original order |
| Plot.ScoreColumnsSorted | plot.py:99-102 | for the scorer's own columns the three group sorts succeed and return exactly that centre's columns, ascending by sort key, where each column's sort key is its delta |
| Plot.BarLabels | plot.py:109 | one bar label per column, in order: the canonical decimal text of its leading integer, with no leading zero except for 0 itself |
| Plot.BarLabelsOfLabels | plot.py:109 | the bar labels of score columns are their deltas |
| Transfer.MergeSelections | transfer.py:74-95 | the column loop merges the row's selections into the record |
| Transfer.MergeColumn | transfer.py:76-95 | one column updates `current_audio_block` and the record as that column's selection says |
| Transfer.MergedIsRecord | transfer.py:93-95 | a merged key holds the last option selected for it; all other keys keep the base record's value |
| Transfer.TranslateRow | transfer.py:60-97 | the per-row body computes the translated-row specification |
| Transfer.ProcessAndTranslateSurveyData | transfer.py:56-101 | one translated row per data row, in order, row 0 excluded; the columns are their keys in first-seen order |
| Transfer.PairColumnLastWins | transfer.py:83-95 | `"{block} - Pair {n}"` is set iff some column, with the full phrase, a Pair token and a cell of '1', selects it; the last such column wins; other keys come from the base row |
| Transfer.BaseRowFacts | transfer.py:62-71 | the base row's keys are the renamed metadata then new demographic columns, with no duplicates; every demographic column and every present metadata header's English name holds its cell |
| Transfer.BaseRowKeys | transfer.py:62-71 | the base row's keys are the present English names then the demographic columns, without duplicates |
| Transfer.BaseRowDemo | transfer.py:68-71 | every found demographic column holds its cell, under its original name |
| Transfer.BaseRowMetadata | transfer.py:63-66 | every present Chinese metadata header's cell appears under its English name, which no demographic column overwrites |
| Transfer.TransferRowMetadata | transfer.py:63-95 | in the emitted row, after the pair selections are merged, every present Chinese metadata header's cell sits under its English name, and no Chinese metadata header is itself a key |
| Transfer.PairColumnsStartWithA | transfer.py:79-94 | every merged `"{block} - Pair {n}"` key begins with the 'A' of its "Audio" block, so no metadata name, all of which begin otherwise, is ever overwritten |
| Transfer.SourceNamesNotTargets | transfer.py:15-30 | no Chinese metadata header equals an English metadata name |
| Transfer.SourceNamesNotDemoCols | transfer.py:15-52 | no Chinese metadata header is found as a demographic column |
| Transfer.MetadataTargetsDistinct | transfer.py:15-30 | the 14 English names are pairwise distinct |
| Transfer.MetadataTargetsNotDemo | transfer.py:15-44 | no English metadata name contains a demographic keyword |
| Transfer.MetadataTargetsNotDemoCols | transfer.py:15-52 | no English metadata name is ever found as a demographic column |
| Records.PutFacts | judge.py:87 | a dict assignment sets the key, keeps the others, and appends a new key at the end of the insertion order |
| Records.DedupFacts | judge.py:67-73 | deduplication is duplicate-free, keeps exactly the elements, and keeps first-occurrence order |
| Records.FrameColumnsUniform | judge.py:146 | `pd.DataFrame` of records that share one key list has exactly those columns |
| Records.Filter | judge.py:154 | a comprehension filter keeps exactly the elements satisfying the test |
| Sorting.SortByFacts | judge.py:164-166 | the key sort is sorted, a permutation, and stable |
| Strings.StripFacts | judge.py:69 | `strip()` removes exactly the leading and trailing whitespace |
| Strings.Lower | shapiro-wilk.py:24 | `lower()` on ASCII text: A-Z become a-z, every other character is unchanged, and the length is kept |
| Strings.DigitRuns | shapiro-wilk.py:35 | `re.findall(r'\d+')` returns non-empty digit runs, and none exactly when the text has no digit |
| Strings.DigitRunsCons | shapiro-wilk.py:35 | a digit run ended by a non-digit or the end of the text is the first run, followed by the runs of the rest |
| Strings.DigitRunsAfterText | shapiro-wilk.py:35 | text without digits adds no run; with DigitRunsCons, the runs are the maximal digit runs, left to right |
| Strings.DigitRunsOfDigits | shapiro-wilk.py:35 | a non-empty string of digits is exactly one run |
| Strings.NatToString | judge.py:120 | the decimal text of a number is non-empty, all digits, and reads back as the number |
| Strings.DigitsToNatCanonical | plot.py:109 | `str(int(d))` gives back a digit string `d` that has no leading zero |
| Demographics.ReplaceNbsp | shapiro-wilk.py:11 | every no-break space becomes a space, and nothing else changes |
| Demographics.NormalizeHeader | shapiro-wilk.py:11 | a cleaned header is the header with every no-break space replaced by a space, cut down to the slice left after all whitespace at both ends is removed; it has no no-break space and no whitespace at either end |
| Demographics.CleanColumns | shapiro-wilk.py:11 | the cleaned header list has one cleaned name per header, in order |
| Demographics.FirstWith | shapiro-wilk.py:13-15 | the first column whose lower-cased name contains the phrase, or none |
| Demographics.FindAnswerCols | shapiro-wilk.py:13-15 | the three answer columns exist iff each phrase matches a column; each is the first match |
| Demographics.AnyIn | shapiro-wilk.py:24 | `any(w in s ...)` holds iff some word of the list occurs in the text |
| Demographics.ClassifyTonal | shapiro-wilk.py:23-24 | `classify_tonal` holds iff the lower-cased answer contains one of the five tonal language names |
| Demographics.TonalWithin | shapiro-wilk.py:23-24 | a tonal answer stays tonal inside any longer answer |
| Demographics.TonalIgnoresCase | shapiro-wilk.py:23-24 | the tonal test does not depend on letter case |
| Demographics.ClassifyMusician | shapiro-wilk.py:26-41 | `classify_musician` holds iff the music answer is not "nan" and names a keyword, the years answer is not "nan", and the short years rule of `YearsDecision` accepts |
| Demographics.YearsRule | shapiro-wilk.py:32-41 | the six-branch years cascade, as written, always agrees with the short rule `YearsDecision` |
| Demographics.MusicianNeedsAnswers | shapiro-wilk.py:27-31 | a musician has a non-"nan" music answer naming a keyword, a non-"nan" years answer, and an accepting years rule |
| Demographics.YearsRuleDecision | shapiro-wilk.py:32-41 | the cascade equals the short rule: month-only rejects; a qualitative phrase accepts; no digits rejects; since/ago needs the last number ≥ 3; age needs the first number ≤ 23; otherwise the first number must be ≥ 3 |
| Demographics.MonthOnlyRejects | shapiro-wilk.py:32 | "month" without "year" is never a musician, whatever follows |
| Demographics.QualitativeAccepts | shapiro-wilk.py:33 | past the month check, many/several/more than/10+/15+ accept |
| Demographics.TenPlusMonths | shapiro-wilk.py:32-33 | "10+ months" contains a qualitative phrase and still rejects |
| Demographics.UnparseableYears | shapiro-wilk.py:35-41 | a years answer with no digit run and no qualitative phrase rejects |
| Demographics.SinceRule | shapiro-wilk.py:34-35 | in the since/ago branch, the last digit run is compared with 3 |
| Demographics.SinceYearAccepted | shapiro-wilk.py:34-35 | "since 2024" with "piano" classifies as a musician, because 2024 ≥ 3 |
| Demographics.GroupIndex | shapiro-wilk.py:57-58 | the position of a label in `group_order` is below 4 |
| Demographics.GroupLabel | shapiro-wilk.py:45-47 | the label built from the two flags is the `group_order` entry at the flags' index |
| Demographics.GroupLabelInOrder | shapiro-wilk.py:45-47 | the label built from the two flags is the `group_order` entry at its index |
| Demographics.GroupOrderDistinct | shapiro-wilk.py:57-58 | the four group labels are pairwise distinct |
| Demographics.GroupLabelInjective | shapiro-wilk.py:45-47 | equal labels come from equal flags |
| Demographics.GroupColumn | shapiro-wilk.py:45-47 | one label per respondent, each one of the four in `group_order` |
| Demographics.Select | shapiro-wilk.py:64 | `df[df['group'] == g][col]` picks at most one value per respondent |
| Demographics.SelectCount | shapiro-wilk.py:64 | a group's data has one value per respondent of that group |
| Demographics.GroupsPartition | shapiro-wilk.py:57-64 | the four group sizes add up to the number of respondents |
| Demographics.BandColumns | shapiro-wilk.py:49-51 | `cols_200`, `cols_1000`, `cols_5000`: a permutation of the columns carrying the tag, sorted by first digit run |
| Demographics.RowTotal | shapiro-wilk.py:52-54 | `sum(axis=1)` of one row exists iff no cell is text; over error-count cells it lies in [0, 4·columns] |
| Demographics.BandColumnsFacts | shapiro-wilk.py:49-51 | the band's columns are a stable permutation of the tagged columns, sorted by first digit run, each having a digit run |
| Demographics.SumOfPermutation | shapiro-wilk.py:52-54 | a row sum does not depend on the column order |
| Demographics.SumOfBounds | shapiro-wilk.py:52-54 | a sum of error counts lies between 0 and 4 times the number of columns |
| Demographics.RowTotalPermutation | shapiro-wilk.py:52-54 | the row total, or its failure on a text cell, does not depend on the column order |
| Demographics.BandTotalFacts | shapiro-wilk.py:49-54 | the band total is the sum over the tagged columns; with count cells it exists and lies in [0, 4·columns] |
| Demographics.BandTotal | shapiro-wilk.py:49-54 | `total_200`, `total_1000`, `total_5000` of one row equal the row total over the tagged columns in table order |
| Demographics.TotalColumn | shapiro-wilk.py:52-54 | a band's total column exists iff every row's total does, and holds those totals |
| Demographics.TotalColumns | shapiro-wilk.py:52-54 | the totals of all requested bands, in band order |
| Demographics.Prepare | shapiro-wilk.py:10-54 | the header list is cleaned first; the prepared table exists iff the three answer columns and all totals exist among the cleaned names; it holds each row's group and band totals |
| Demographics.PreparedSums | shapiro-wilk.py:49-54 | every prepared total is the sum of the row's tagged columns |
| Demographics.GroupsData | levene.py:64 | one data list per group, in `group_order` |
| Demographics.GroupsDataCover | levene.py:64 | the four groups' data together have one value per respondent |
| Normality.DisplaySplit | shapiro-wilk.py:70 | replacing `" \| "` puts the two halves of a label on two lines |
| Normality.DisplayLabel | shapiro-wilk.py:70 | each group's printed label is its two halves on two lines |
| Normality.DisplayAt | shapiro-wilk.py:70 | the printed label of `group_order[g]` is the g-th display name |
| Normality.DisplaysDistinct | shapiro-wilk.py:57-70 | the four printed labels are pairwise distinct |
| Normality.BandLoop | shapiro-wilk.py:63-79 | the inner loop adds one row per group with at least 3 respondents |
| Normality.NormalityRows | shapiro-wilk.py:61-79 | the nested loops compute the table specification |
| Normality.EntryFacts | shapiro-wilk.py:64-79 | a group contributes at most one row, exactly when it has ≥ 3 respondents; the row has n = ks_df = sw_df, the right label, a `*` iff ks_p > 0.05, and holds both tests run on that group's values |
| Normality.RowFor | shapiro-wilk.py:66-79 | one normality row: the band, the display label, n = ks_df = sw_df = the group size, both tests' results on that group's data, and a `*` iff ks_p > 0.05 |
| Normality.GroupRowsComplete | shapiro-wilk.py:63-65 | a band has a row for a group iff that group has at least 3 respondents |
| Normality.BandRowsComplete | shapiro-wilk.py:62-65 | a (band, group) row exists iff the group has at least 3 respondents |
| Normality.GroupRowsTested | shapiro-wilk.py:64-67 | every row of a band holds the KS and SW results of that band's values of the row's own group |
| Normality.BandRowsTested | shapiro-wilk.py:62-67 | every row of the first k bands holds the KS and SW results of its own band's totals of its own group |
| Normality.TableFacts | shapiro-wilk.py:61-79 | at most 12 rows, in band-then-group order, one per (band, group) with n ≥ 3, each holding both tests run on its group's totals in its band |
| Normality.RowMarks | shapiro-wilk.py:137-160 | the drawing loop with `prev_freq` prints each row's band text by the first-of-run rule and shades its SW cell iff sw_p < 0.05 |
| Normality.ShownOnceOrdered | shapiro-wilk.py:142-143 | in a band-ordered table, the band is printed exactly on the first row of each band |
| Normality.FreqShownOnce | shapiro-wilk.py:142-143 | in the normality table the band name is printed exactly on each band's first row |
| Levene.Verdict | levene.py:73 | the verdict is Equal or Unequal, and Equal iff p > 0.05 |
| Levene.NextStep | levene.py:74 | the next step is one of the two recommendations, plain ANOVA iff p > 0.05 |
| Levene.VerdictRule | levene.py:73-74 | Equal iff p > 0.05; Equal goes with plain ANOVA and Unequal with Welch's |
| Levene.LeveneRows | levene.py:62-75 | exactly one row per band, in order 200, 1000, 5000, each testing that band's four group samples |
| Levene.DegreesOfFreedom | levene.py:69-70 | df1 is the number of groups less one (3); df2 is the number of respondents less 4 |
| Levene.HighlightMeansUnequal | levene.py:125-126 | a shaded p cell means Unequal; p = 0.05 is Unequal without shading |
| Anova.AnovaBandsAreUpperTwo | anova.py:58 | the ANOVA runs on the 1000 and 5000 Hz bands, in that order |
| Anova.AnovaRows | anova.py:57-70 | exactly two result rows, 1000 Hz then 5000 Hz, each from its band's ANOVA |
| Anova.AnovaInputs | anova.py:51-54 | `total_1000` and `total_5000` are the sums of the `(1000Hz)` and `(5000Hz)` columns |
| Kruskal.AtLeastZero | kruskal-wallis.py:61 | `max(x, 0)` is at least 0 and at least x, and is one of the two |
| Kruskal.EffectSize | kruskal-wallis.py:60-61 | the effect size is undefined iff n = 4, and otherwise non-negative |
| Kruskal.EffectSizeClamp | kruskal-wallis.py:61 | for n > 4: (H-3)/(n-4) when H ≥ 3, else 0; positive iff H > 3 |
| Kruskal.KruskalRow | kruskal-wallis.py:58-62 | the row tests the 200 Hz totals split by group, with df = k - 1 = 3 and the clamped effect size |
| Kruskal.KruskalEffect | kruskal-wallis.py:58-61 | the effect size is defined iff the four groups do not hold exactly 4 respondents, and is then ≥ 0 |
| Kruskal.KruskalInputs | kruskal-wallis.py:50-52 | `total_200` is the sum of the `(200Hz)` columns |
| Stimulus.BuildPool | make_audio_record.py:97-101 | the pool holds `5000 - 6(i+1)` at index i, for i < 10 |
| Stimulus.UnshuffledFacts | make_audio_record.py:97-101 | the pool is strictly decreasing, pairwise distinct, and strictly between 0 and the centre |
| Stimulus.Shuffle | make_audio_record.py:104 | `random.shuffle` swaps from the last position down with the given draws, giving the shuffle specification |
| Stimulus.ShuffleStepsPermutation | make_audio_record.py:104 | every prefix of the swaps keeps the same elements: the shuffled pool is a permutation |
| Stimulus.SwapPermutation | make_audio_record.py:104 | one exchange keeps the elements |
| Stimulus.Presentation | make_audio_record.py:67-76 | a pair segment has eight pieces: blank, tone, blank, tone, four blanks |
| Stimulus.PresentationSamples | make_audio_record.py:12-14 | a segment has 6·8820 + 2·22050 = 97020 samples |
| Stimulus.FlattenSamples | make_audio_record.py:80 | concatenated segments have that many samples per segment |
| Stimulus.FlattenEights | make_audio_record.py:80 | concatenating 8-piece segments puts segment i at pieces 8i..8i+8 |
| Stimulus.CreateAudioForPair | make_audio_record.py:36-82 | the clip has 4 segments, each in the drawn order; the code is 4 letters over {F, S}, F exactly when the centre is played first; the clip has 4·97020 samples |
| Stimulus.PairCode | make_audio_record.py:53-81 | one letter per draw, `F` iff the draw put the centre first |
| Stimulus.SameCode | make_audio_record.py:81 | a code matching the draws letter by letter is the code of the draws |
| Stimulus.JoinLetters | make_audio_record.py:81 | `"".join` of one-letter parts is those letters in order |
| Stimulus.CodeMeansFirstHigher | make_audio_record.py:58-65 | the first tone of a segment is the higher one iff the draw chose `F` |
| Stimulus.HeardAnswersScoreZero | make_audio_record.py:58-65 | a listener who names the higher tone each time scores 0 errors against the clip's code |
| Stimulus.HeardAnswerAt | make_audio_record.py:58-65 | that listener answers pair j with First iff draw j-1 put the centre first |
| Stimulus.FileNameRoundTrip | make_audio_record.py:118 | `"5000-{idx}-{comp}-{code}.wav"` parses back to the index, frequency and code |
| Stimulus.ParseFieldOf | make_audio_record.py:118 | a number followed by `-` parses back to the number and what follows |
| Stimulus.ParseGroupPrefix | make_audio_record.py:118 | a name is parsed by dropping the `5000-` group prefix |
| Stimulus.FileNamesDistinct | make_audio_record.py:113-118 | files with different indices have different names |
| Stimulus.RecordRow | make_audio_record.py:113-128 | one iteration builds the row `[filename, 5000, comp, code]` of that clip |
| Stimulus.RecordRows | make_audio_record.py:109-128 | the loop builds one row per pool entry, in pool order |
| Stimulus.RowsForFacts | make_audio_record.py:113-128 | the row list has one row per pool entry, row k made from entry k and its draws |
| Stimulus.Generate | make_audio_record.py:95-128 | the pool is the shuffled pool, a permutation of the unshuffled one, and row k is entry k's CSV row |
| Stimulus.KeyIsAShuffle | judge.py:22-24 | the 5000 Hz key targets, in order, are one outcome of the generator's shuffle |
| Stimulus.KeyMatchesPool | judge.py:22-24 | the 5000 Hz key targets are exactly the generator's pool, each once |
| Stimulus.KeyPatterns | judge.py:22-24 | the 5000 Hz key patterns are 4-letter codes over {F, S}, as the generator writes them |

## Left out

- Statistics libraries: `stats.kstest`, `stats.shapiro`, `stats.levene`,
  `stats.kruskal` and `pg.anova` are floating-point library numerics. They
  are function parameters, so their outputs enter as opaque reals.
- Plotting: `cell()`, the table layouts, the bar charts, titles and
  `savefig` are drawing-library calls. Only the label, star, band-text and
  shading decisions are modelled.
- File I/O: `pd.read_csv` with its encoding fallback, `to_csv`, the CSV
  writer and the directory handling are I/O. The model takes headers and
  rows as values and returns records and CSV rows as values.
- pandas dtype inference: cells are text, an integer or NaN. Float cells
  and mixed dtypes are not modelled; a text cell in a band total makes the
  total undefined rather than raising.
- Duplicate headers: rows are keyed by the normalised header, so a second
  column with the same name is not a distinct column. `Demographics.Prepare`
  cleans the header list it is given; the rows are taken already keyed by
  the cleaned names, so the renaming of each row's keys is not modelled.
- `.dropna()` on the band totals is a no-op here, because every total in
  the prepared table is defined.
- Formatting: the `:.3f` and `%d` formatting of numbers is left out. Numbers
  stay numbers in the row records. The `*` suffix is a boolean field.
- Printing: the `print` lines (progress messages, the ANOVA and
  Kruskal-Wallis summary lines) are console output.
- Demographics.FindAnswerCols, Plot.GetColsSorted: `None` stands for the
  exception that ends the script: the IndexError of `[...][0]` when no
  column matches (shapiro-wilk.py:13-15, levene.py:14, anova.py:15,
  kruskal-wallis.py:14), and the AttributeError of the sort key on a tagged
  column without a leading number (plot.py:96). No partial output before
  the exception is modelled.
- Judge.FinalOrderPermutation, Judge.FinalOrderGroups, Judge.SurveyColumnsOneTag,
  Judge.MetaColumnsOneTag: these hold only when no column carries two of the
  tags "(200Hz)", "(1000Hz)", "(5000Hz)". The score labels never do, but a
  demographic header could. The column-ordering code of judge.py:153-173
  puts such a column into every group whose tag it contains, so it would
  appear more than once in the final list. The model proves nothing about
  the order in that case.
- Kruskal.EffectSize: at n = 4 the script divides a numpy float by zero:
  `max((H-3)/0, 0)` is inf for H > 3, nan for H == 3 and 0 for H < 3 (the
  maximum of minus infinity and 0), with a silenced warning. The model
  returns None for all three.
- Plot.LeadInt: its contract fixes the number only when the leading run
  has no leading zero; for a run such as "007" it says only that the number
  is non-negative, although `int` reads it as 7 (no score label has a leading
  zero, as `Plot.BarLabelsOfLabels` shows).
- Strings.DigitRuns: `\d` is modelled as the ASCII digits 0-9. Python's
  `re` also matches other Unicode decimal digits (such as `'٣'`), which the
  model treats as non-digits, so such a run is not found.
- Strings.Lower: only the ASCII capitals A-Z are folded. Python's `lower()`
  also maps non-ASCII capitals, and some of them to more than one
  character (`'İ'` becomes two), which the model does not capture.
- Randomness: `random.choice` and `random.shuffle` are replaced by explicit
  draw sequences. A draw's range is a precondition.
- Waveforms: `generate_sine_wave`, the int16 conversion and the WAV writer
  are float numerics and file output. A clip is modelled as pieces with
  sample counts.
- Other scripts: `make_audio.py` reads interactive input and uses float
  frequencies. `control_volume.py` scales float amplitudes. `make_Video.py`
  calls ffmpeg. The Manim scenes use an animation library. None of them is
  part of this model.
- Sorting: Python's in-place `list.sort` and `sorted` are one stable sort
  function on sequences. The model does not capture the in-place update of
  the column lists.
- Loop bodies: the bodies of the header scans, the CSV-row loop and the
  normality band loop are separate methods, proved one iteration at a time
  (`Transfer.MergeColumn`, `Judge.ExtractColumn`, `Stimulus.RecordRow`,
  `Normality.BandLoop`).
