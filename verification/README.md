# Ledger classification engine, modelled in Dafny

This project models the deterministic core of a trial-balance mapping tool. The tool takes free-text ledger names from a trial balance. It places each ledger in a four-level chart of accounts: major head, minor head, grouping, line item.

The model covers:

- **String scoring** (`Levenshtein`, `FuzzyMatch`, `Keywords`, `Text`): the edit distance, the similarity score in [0, 1], the first-best matcher, the whole-word keyword tagger and the keyword-boosted taxonomy matcher.
- **The auto-mapping cascade** (`AutoMapping`, `ChartOfAccounts`): grouping first, then minor head, then keyword fallback, and the batch wrapper over it.
- **Mapping state** (`Workbench`, `MappingPanel`):
  - the split of the trial balance into mapped and unmapped ledgers;
  - mapping and unmapping by id;
  - the three selections and the auto-select effect;
  - the cascading choices of the mapping form and the application of a suggestion.
- **The undo/redo history** (`History`).
- **The trial-balance CSV reader** (`CsvImport`).
- **Small list rules**:
  - row editing by id (`GenericSchedule`);
  - the schedule navigation filter and the finalise/edit switch (`SchedulesPage`);
  - the selection, stable sort and skip rule of the notes report (`NotesToAccounts`).

Scores and confidences are exact reals. Strings are `seq<char>`. Case mapping covers ASCII letters. White space is the set that JavaScript's `trim` and `\s` use. The `\b(...)\b` patterns are an explicit word-boundary predicate over `\w`. Every operation is a pure function over immutable datatypes. The exceptions are the matrix edit distance and the score computed from it, which are methods with loop invariants, proved equal to the recursive definition.

## Model

| member | source | states |
|---|---|---|
| ChartOfAccounts.FindMajorHead | utils/autoMapping.ts:33 | the major head found by code is in the masters with that code, and no earlier major head has the code (`find` returns the first match); none exactly when no major head has the code |
| ChartOfAccounts.FindMinorHead | utils/autoMapping.ts:32 | the minor head found by code is in the masters with that code, and no earlier minor head has the code; none exactly when no minor head has the code |
| ChartOfAccounts.FindGrouping | components/MappingPanel.tsx:45 | the grouping found by code is in the masters with that code, and no earlier grouping has the code; none exactly when no grouping has the code |
| ChartOfAccounts.MinorHeadsOf | components/MappingPanel.tsx:77 | exactly the minor heads whose parent is the given major head, in master order (cutting the masters anywhere cuts the list there) |
| ChartOfAccounts.GroupingsOf | utils/autoMapping.ts:62-63 | exactly the groupings whose parent is the given minor head, in master order (cutting the masters anywhere cuts the list there); its head is the first grouping of the masters under that minor head |
| ChartOfAccounts.LineItemsOf | utils/autoMapping.ts:37 | exactly the line items whose parent is the given grouping, in master order (cutting the masters anywhere cuts the list there) |
| Levenshtein.Distance | utils/fuzzyMatch.ts:12-38 | the edit distance is at most the longer length and at least the difference of the lengths |
| Levenshtein.CellBounds | utils/fuzzyMatch.ts:18-35 | every matrix cell lies between the difference and the maximum of its two prefix lengths |
| Levenshtein.CellPrefixes | utils/fuzzyMatch.ts:18-35 | a matrix cell depends only on the prefixes of the two strings it stands for |
| Levenshtein.CellIsPrefixDistance | utils/fuzzyMatch.ts:18-35 | every matrix cell is the edit distance between the two prefixes it stands for |
| Levenshtein.ToEmpty | utils/fuzzyMatch.ts:18-23 | the distance between a string and the empty string, either way round, is its length |
| Levenshtein.Symmetric | utils/fuzzyMatch.ts:12-38 | the distance does not depend on the order of its arguments |
| Levenshtein.CellSymmetric | utils/fuzzyMatch.ts:26-35 | the matrix of (a, b) is the transpose of the matrix of (b, a) |
| Levenshtein.ZeroIff | utils/fuzzyMatch.ts:12-38 | the distance is 0 exactly between equal strings |
| Levenshtein.NextRow | utils/fuzzyMatch.ts:27-34 | the row the inner loop fills equals the recursive definition cell by cell |
| Levenshtein.Compute | utils/fuzzyMatch.ts:12-38 | the matrix algorithm returns the recursive edit distance |
| FuzzyMatch.Cap | utils/fuzzyMatch.ts:144 | `Math.min(1, x)` is at most both 1 and x, and is one of them |
| FuzzyMatch.NormalizeFrame | utils/fuzzyMatch.ts:47-48 | the normal form is a stretch of the lower-cased string, and only white space is cut off at either end |
| FuzzyMatch.NormalizeShape | utils/fuzzyMatch.ts:47-48 | the normal form holds no upper-case letter, and neither of its ends is white space |
| FuzzyMatch.Closeness | utils/fuzzyMatch.ts:56 | 1 - d/m lies in [0, 1], is 1 exactly for d = 0, is 0 exactly for d = m, and m times it is m - d |
| FuzzyMatch.Similarity | utils/fuzzyMatch.ts:46-57 | the score is in [0, 1]; it is 1 exactly when the lower-cased trimmed strings are equal (two blanks included); it is 0 when exactly one of them is blank |
| FuzzyMatch.SimilaritySymmetric | utils/fuzzyMatch.ts:46-57 | the score does not depend on the order of its arguments |
| FuzzyMatch.SimilarityNormalized | utils/fuzzyMatch.ts:47-48 | two inputs equal after lower-casing and trimming score alike against anything |
| FuzzyMatch.LengthRatio | utils/fuzzyMatch.ts:53-56 | the shorter length over the longer, in [0, 1] |
| FuzzyMatch.SimilarityLengthBound | utils/fuzzyMatch.ts:50-56 | two different normalized strings never score above the shorter length over the longer |
| FuzzyMatch.NonBlankLengthBound | utils/fuzzyMatch.ts:50-56 | for two different non-blank strings the score is at most the shorter length over the longer |
| FuzzyMatch.ClosenessAntitone | utils/fuzzyMatch.ts:56 | a larger distance over the same length never scores higher |
| FuzzyMatch.Score | utils/fuzzyMatch.ts:46-57 | the score computed with the matrix algorithm equals the specified similarity |
| FuzzyMatch.Best | utils/fuzzyMatch.ts:71-82 | for any score, the winner: a non-empty candidate of the list; it qualifies; its score is positive and no qualifying candidate beats it; no result when every qualifying candidate scores 0, and, when no candidate is empty, only then |
| FuzzyMatch.FindBestMatch | utils/fuzzyMatch.ts:66-83 | the result is a non-empty candidate of the list with its own similarity; that similarity reaches the threshold and is positive; no qualifying candidate scores higher; no result when no candidate qualifies with a positive score, and, when no candidate is empty, only then |
| FuzzyMatch.FindBestMatchDefault | utils/fuzzyMatch.ts:66-70 | with the default threshold 0.6: a result is a non-empty candidate scoring at least 0.6, and there is none when no candidate does |
| FuzzyMatch.FindBestMatchFirst | utils/fuzzyMatch.ts:76 | ties keep the earlier candidate: every qualifying candidate before the winner scores strictly less |
| FuzzyMatch.BestFirst | utils/fuzzyMatch.ts:74-80 | for any score, every qualifying candidate before the winner scores strictly less |
| FuzzyMatch.EmptyWinnerIsNull | utils/fuzzyMatch.ts:82 | a leading empty candidate scores 1 against a blank target, wins, and is then dropped as falsy, so no match is returned |
| FuzzyMatch.SharesTagIff | utils/fuzzyMatch.ts:143 | two names share a detected tag exactly when one category's pattern matches both |
| FuzzyMatch.FinalScore | utils/fuzzyMatch.ts:143-144 | the boosted score is never below the raw similarity and never above 1, and equals it without a shared tag |
| FuzzyMatch.Confidence | utils/fuzzyMatch.ts:155-163 | the confidence is never below the winning boosted score and never above 1, and equals it without a shared tag |
| FuzzyMatch.Winner | utils/fuzzyMatch.ts:138-150 | the chosen item is eligible by raw similarity, no eligible item has a higher boosted score, and every eligible item before it scores strictly less (ties go to the first, as `>` replaces only on a strict gain); no winner exactly when every eligible item's boosted score is 0 |
| FuzzyMatch.WinnerBest | utils/fuzzyMatch.ts:143-149 | the item the scan keeps is eligible, scores above 0, and no eligible item scores more |
| FuzzyMatch.WinnerFirst | utils/fuzzyMatch.ts:146 | every eligible item before the one the scan keeps scores strictly less |
| FuzzyMatch.WinnerNone | utils/fuzzyMatch.ts:138-152 | when the scan keeps nothing, no eligible item scores above 0 |
| FuzzyMatch.FuzzyMatchLedger | utils/fuzzyMatch.ts:129-165 | the match is an item of the list whose raw similarity reaches the threshold; its score is that raw similarity; score <= boosted score <= confidence <= 1; no eligible item ranks higher, and every eligible item listed before it ranks strictly lower; null exactly when no eligible item has a positive boosted score |
| FuzzyMatch.FuzzyMatchLedgerDefault | utils/fuzzyMatch.ts:129-133 | with the default threshold 0.6: a match is an item whose raw similarity reaches 0.6, and there is one exactly when some item's does |
| FuzzyMatch.PositiveThresholdMatches | utils/fuzzyMatch.ts:146-152 | with a positive threshold there is no match exactly when every item's similarity is below the threshold (an empty list included) |
| FuzzyMatch.ConfidenceBoost | utils/fuzzyMatch.ts:143-163 | the boost is applied twice: without a shared tag the confidence is the score; with one and a score of at most 0.8 it is 1.1 * score + 0.11 |
| FuzzyMatch.DoubleBoost | utils/fuzzyMatch.ts:144 | adding 0.1 and then scaling by 1.1 hits neither cap for a score of at most 0.8 |
| Keywords.FilterTags | utils/fuzzyMatch.ts:94-119 | running the five tests in turn keeps exactly the tags that pass, in rank order |
| Keywords.Detect | utils/fuzzyMatch.ts:90-120 | a tag is returned exactly when its pattern matches the lower-cased name as a whole word; tags come in the order asset, liability, income, expense, equity, none twice, at most five |
| Keywords.TermsLowerCase | utils/fuzzyMatch.ts:91-115 | every alternative of the patterns is written in lower case, so lower-casing the name alone makes the match case-insensitive |
| Keywords.CaseInsensitive | utils/fuzzyMatch.ts:91 | names equal after lower-casing get the same tags |
| Keywords.LowerFirst | utils/fuzzyMatch.ts:91 | lower-casing the name first changes nothing |
| Keywords.NoWordInside | utils/fuzzyMatch.ts:95 | a run of word characters has no word boundary strictly inside it |
| Keywords.WordOnlyWhole | utils/fuzzyMatch.ts:95 | in a name made of word characters only, the one whole word is the name itself |
| Keywords.NoTermIsCommission | utils/fuzzyMatch.ts:95-115 | no alternative of any pattern is the bare word "commission" |
| Keywords.NoTagForCommission | utils/fuzzyMatch.ts:105-110 | no category's pattern matches "commission" |
| Keywords.BareCommission | utils/fuzzyMatch.ts:105-110 | a bare "commission", in either case, gets no tag at all, so neither income nor expense |
| Keywords.CommissionPhrases | utils/fuzzyMatch.ts:105-110 | "commission received" is tagged income and "commission paid" is tagged expense |
| Keywords.NoTagsForCommission | utils/fuzzyMatch.ts:105-110 | the lower-case word "commission" alone receives an empty tag list |
| Keywords.CapitalCommission | utils/fuzzyMatch.ts:105-110 | "Commission" and "commission" are the same name once lower-cased, as the matcher sees them |
| Keywords.CommissionIsWord | utils/fuzzyMatch.ts:105-110 | every letter of "commission" is a word character, so a word boundary cannot fall inside it |
| Keywords.CommissionReceived | utils/fuzzyMatch.ts:105 | the phrase "commission received" carries the income tag |
| Keywords.CommissionPaid | utils/fuzzyMatch.ts:110 | the phrase "commission paid" carries the expense tag |
| AutoMapping.Ancestors | utils/autoMapping.ts:32-35 | the parents found for a grouping are the FIRST minor head with its code and the FIRST major head with that minor head's parent code, as `find` returns them; none exactly when a parent link dangles |
| AutoMapping.LineItemFor | utils/autoMapping.ts:37-46 | the line item code is '' or the code of a line item under the chosen grouping; it is the code of the best line item match when there is one, and '' when no line item of the grouping scores 0.55 |
| AutoMapping.PlaceGrouping | utils/autoMapping.ts:31-35 | a placed grouping gives consistent codes: the parent code of the first minor head with the grouping's minor-head code, that code, the grouping's own code and the given line item; none exactly when a parent is missing |
| AutoMapping.ByGrouping | utils/autoMapping.ts:28-52 | a result exists exactly when the best grouping match has confidence at least 0.60 and its minor and major heads exist; it then carries that grouping's code, its minor head, the parent of the first minor head with that code, the line item chosen under it and the match's confidence, with consistent codes and a confidence between 0.60 and 1 |
| AutoMapping.ChildGrouping | utils/autoMapping.ts:63-68 | the chosen child belongs to the minor head; none exactly when it has no child; it is the best child match when one scores 0.50, and the first child when none does |
| AutoMapping.PlaceMinorHead | utils/autoMapping.ts:59-77 | a placed minor head gives exactly its parent code, its own code, the chosen child's code and no line item, and these are consistent; none exactly when its major head is missing or no child was chosen |
| AutoMapping.ByMinorHead | utils/autoMapping.ts:55-80 | a result exists exactly when the best minor-head match has confidence at least 0.55, its major head exists and it has a child grouping; it then carries that minor head, its own parent code, the child chosen under it, no line item and the confidence scaled by 0.9, with consistent codes |
| AutoMapping.RelatedGroupings | utils/autoMapping.ts:85-88 | exactly the groupings sharing a tag with the ledger name, in master order (cutting the masters anywhere cuts the list there) |
| AutoMapping.ByKeyword | utils/autoMapping.ts:83-111 | a result exists exactly when the name has a tag and the best match among the related groupings has existing parents; it then carries that grouping, its minor-head code, the parent of the first minor head with that code and the confidence scaled by 0.8, with consistent codes, no line item and a confidence between 0.40 * 0.8 and 0.8 |
| AutoMapping.AutoMapLedger | utils/autoMapping.ts:11-114 | a suggestion exists exactly when one of the three steps succeeds; a qualifying grouping match always wins with its own code and confidence; every suggestion names codes that exist and hang together; its confidence is in (0, 1]; a line item appears only on the grouping path, whose confidence is at least 0.60 |
| AutoMapping.CascadeOrder | utils/autoMapping.ts:28-113 | the steps run in order and the first success wins; there is no result exactly when all three steps fail |
| AutoMapping.BalanceIrrelevant | utils/autoMapping.ts:24 | the closing balance never changes the suggestion |
| AutoMapping.ChildlessMinorHeadFallsThrough | utils/autoMapping.ts:65 | a matched minor head without groupings yields nothing, and the cascade goes on to the keyword step |
| AutoMapping.ChildlessMinorHeadFails | utils/autoMapping.ts:63-68 | the minor-head step yields nothing when the matched minor head has no grouping |
| AutoMapping.RepeatedMinorCodeFirst | utils/autoMapping.ts:32-33 | with two minor heads sharing a code under different major heads, a grouping is placed under the first one, as `find` does |
| AutoMapping.BatchEntryFor | utils/autoMapping.ts:138-160 | a mapping is given exactly when the suggestion exists with confidence at least the minimum; otherwise the confidence is the suggestion's, or 0 without one |
| AutoMapping.BatchAutoMap | utils/autoMapping.ts:123-162 | one entry per input ledger, in input order, named after it; every mapping given is consistent |
| AutoMapping.BatchAutoMapDefault | utils/autoMapping.ts:123-127 | with the default minimum of 0.55: one entry per ledger, with a mapping exactly when the suggestion's confidence is at least 0.55 |
| History.Init | hooks/useHistoryState.ts:4-5 | a fresh history is valid, holds the initial state, and can neither undo nor redo |
| History.CanMoveIff | hooks/useHistoryState.ts:27-45 | `canUndo` and `canRedo` hold exactly when undo and redo move the cursor |
| History.SetState | hooks/useHistoryState.ts:7-25 | the history stays valid with the new state current; an equal state without overwrite changes nothing; otherwise the redo tail is dropped, one entry is appended after the old current entry, undo becomes possible and redo impossible |
| History.Update | hooks/useHistoryState.ts:10-13 | the functional form makes the function's value on the current state current |
| History.Undo | hooks/useHistoryState.ts:27-31 | the entries are kept; the cursor steps back when it can, and redo then becomes possible; at the first entry nothing changes |
| History.Redo | hooks/useHistoryState.ts:33-37 | the entries are kept; the cursor steps forward when it can, and undo then becomes possible; at the last entry nothing changes |
| History.UndoThenRedo | hooks/useHistoryState.ts:27-37 | undo followed by redo returns to the same history |
| History.RedoThenUndo | hooks/useHistoryState.ts:27-37 | redo followed by undo returns to the same history |
| History.SetThenUndo | hooks/useHistoryState.ts:16-31 | undoing a recorded change brings back the previous state at the previous position |
| History.Apply | hooks/useHistoryState.ts:7-37 | any one operation keeps the history valid and adds at most one entry |
| History.Run | hooks/useHistoryState.ts:4-45 | any sequence of operations keeps the history non-empty with the cursor on an entry |
| Workbench.Partition | components/MappingWorkbench.tsx:29-30 | the unmapped and mapped lists split the trial balance: lengths add up, together they hold each ledger as often as it occurs, each list has the right mapped flag, and each keeps the trial balance's order (splitting the trial balance anywhere splits both lists there) |
| Workbench.MapLedgers | components/MappingWorkbench.tsx:82-86 | the length is kept; listed ledgers become mapped to the four codes, keeping their other fields; every other ledger is unchanged |
| Workbench.UnmapLedgers | components/MappingWorkbench.tsx:93-100 | the length is kept; listed ledgers become unmapped with all four codes null, keeping their other fields; every other ledger is unchanged |
| Workbench.UnmapAfterMap | components/MappingWorkbench.tsx:81-100 | unmapping undoes any mapping of the same ledgers |
| Workbench.MapTwice | components/MappingWorkbench.tsx:82-86 | mapping the same ledgers twice is mapping them once |
| Workbench.MapShrinksUnmapped | components/MappingWorkbench.tsx:82-86 | after mapping, the unmapped list is the old one without the listed ledgers, in the same order |
| Workbench.SelectLedger | components/MappingWorkbench.tsx:32-37 | selecting one ledger clears both tick sets |
| Workbench.Toggle | components/MappingWorkbench.tsx:40-48 | toggling flips the given id and leaves every other id alone |
| Workbench.ToggleTwice | components/MappingWorkbench.tsx:40-48 | toggling the same id twice restores the set |
| Workbench.ToggleUnmapped | components/MappingWorkbench.tsx:39-50 | a tick on an unmapped ledger flips it and clears the single selection |
| Workbench.ToggleMapped | components/MappingWorkbench.tsx:52-63 | a tick on a mapped ledger flips it and clears the single selection |
| Workbench.Ids | components/MappingWorkbench.tsx:67 | the id set holds exactly the ids of the list |
| Workbench.SelectAll | components/MappingWorkbench.tsx:65-71 | select-all ticks exactly the unmapped ledgers' ids, or none; the other selections stay |
| Workbench.SelectAllMapped | components/MappingWorkbench.tsx:73-79 | select-all on the mapped list ticks exactly the mapped ledgers' ids, or none; the other selections stay |
| Workbench.HandleMap | components/MappingWorkbench.tsx:81-90 | mapping updates the trial balance and clears all three selections |
| Workbench.HandleUnmap | components/MappingWorkbench.tsx:92-103 | unmapping clears the single selection and the mapped ticks but keeps the unmapped ticks |
| Workbench.AutoSelect | components/MappingWorkbench.tsx:105-112 | with nothing ticked, a selection that is not an unmapped ledger moves to the first unmapped ledger, or to nothing when all are mapped; ticks or a valid selection leave it alone |
| Workbench.AutoSelectIdempotent | components/MappingWorkbench.tsx:105-112 | running the effect again changes nothing |
| Workbench.SelectedLedgers | components/MappingWorkbench.tsx:115-127 | the panel gets the FIRST trial-balance ledger with the single selected id when there is one, else exactly the ticked unmapped ledgers, else exactly the ticked mapped ledgers, each in trial-balance order with their multiplicity, else nothing; always ledgers of the trial balance |
| MappingPanel.EmptyConsistent | components/MappingPanel.tsx:20-26 | the reset form is consistent |
| MappingPanel.AvailableMinorHeads | components/MappingPanel.tsx:77 | the minor heads offered are exactly the children of the chosen major head |
| MappingPanel.AvailableGroupings | components/MappingPanel.tsx:78 | the groupings offered are exactly the children of the chosen minor head |
| MappingPanel.SelectMajorHead | components/MappingPanel.tsx:111 | choosing a major head clears the two choices below it and keeps the form consistent |
| MappingPanel.SelectMinorHead | components/MappingPanel.tsx:118 | choosing an offered minor head clears the grouping and keeps the form consistent |
| MappingPanel.SelectGrouping | components/MappingPanel.tsx:125 | choosing an offered grouping keeps the form consistent |
| MappingPanel.ApplySuggestion | components/MappingPanel.tsx:39-56 | without a suggestion nothing changes; with one, the major head is taken unchecked; the minor head is taken when its first match lies under that major head, else it and the grouping are cleared; a taken grouping hangs under the minor head |
| MappingPanel.ApplyIdempotent | components/MappingPanel.tsx:39-56 | applying the same suggestion twice is applying it once |
| MappingPanel.ApplyConsistentSuggestion | components/MappingPanel.tsx:42-47 | with unique codes, a suggestion whose codes hang together is taken in full |
| MappingPanel.FirstMinorFound | components/MappingPanel.tsx:42-43 | the check on the suggested minor head holds exactly when the first minor head with that code lies under the suggested major head |
| MappingPanel.FirstGroupingFound | components/MappingPanel.tsx:45-46 | the check on the suggested grouping holds exactly when the first grouping with that code lies under the suggested minor head |
| MappingPanel.ApplyFirstMatch | components/MappingPanel.tsx:39-56 | when codes repeat, the minor head is taken exactly when the first minor head with its code lies under the suggested major head, and the grouping exactly when, besides, the first grouping with its code lies under the suggested minor head; otherwise they are cleared |
| MappingPanel.ReceiveSuggestion | components/MappingPanel.tsx:28-37 | the answer replaces the suggestion only when a ledger is shown; the choices stay |
| MappingPanel.MapRequest | components/MappingPanel.tsx:58-66 | a request is sent exactly when a ledger is shown and all three choices are made, and it carries them |
| CsvImport.HeaderKey | components/ImportModal.tsx:42 | a header key is the lower-cased header cell with every white-space character removed and the rest kept in order |
| CsvImport.IndexOf | components/ImportModal.tsx:43-45 | the first position holding the name; none exactly when the name is absent |
| CsvImport.LayoutOf | components/ImportModal.tsx:43-49 | the layout exists exactly when `ledger` and `closingcy` are both keys; each column points at its key; the previous-year column is present exactly when `closingpy` is a key |
| CsvImport.Field | components/ImportModal.tsx:53 | a field exists exactly when the line has that many cells, and it is trimmed |
| CsvImport.ParseFields | components/ImportModal.tsx:52-60 | a line is rejected exactly when its ledger cell is missing or blank or its current-year cell is not a number; the record holds the trimmed name and the parsed balance; the previous-year balance falls back to 0 |
| CsvImport.ParseRows | components/ImportModal.tsx:51-61 | all lines read means one record per line in order; otherwise the error names the first line that fails |
| CsvImport.Numbered | components/ImportModal.tsx:41 | every line is paired with its 1-based number |
| CsvImport.KeptLines | components/ImportModal.tsx:41 | each kept line passes the test and carries its own line number and text |
| CsvImport.KeptIncreasing | components/ImportModal.tsx:41 | the kept lines keep the file order |
| CsvImport.KeptNone | components/ImportModal.tsx:41 | nothing is kept exactly when no line passes the test |
| CsvImport.Assemble | components/ImportModal.tsx:41-61 | no lines means a no-rows error; a header without the two columns means a missing-columns error; success means every later line reads, with one record each in order; a row error names a later line that does not read |
| CsvImport.AssembleNumbering | components/ImportModal.tsx:51-58 | two numberings of the same lines agree on everything but the number of an invalid row, which comes from the same position |
| CsvImport.ParseRowsNumbering | components/ImportModal.tsx:51-58 | parsing the same texts under two numberings gives the same outcome and fails at the same position |
| CsvImport.Renumbered | components/ImportModal.tsx:51-58 | the source's numbering: the i-th line left after dropping blanks (from 0) is row i + 1 |
| CsvImport.ImportNoRows | components/ImportModal.tsx:41-42 | the import reports no rows exactly when every line of the file is blank |
| CsvImport.ImportBadRow | components/ImportModal.tsx:51-58 | a reported bad row is a non-blank line below the header that the header's layout cannot read, numbered by its line in the file |
| CsvImport.KeptBadRow | components/ImportModal.tsx:51-58 | for any line test, a row error points at a kept line after the first that the reader rejects |
| CsvImport.KeptLineAt | components/ImportModal.tsx:41 | a kept line is a line of the file, under its own number, that passes the test |
| CsvImport.KeptOrder | components/ImportModal.tsx:41 | an earlier kept line has a smaller line number |
| CsvImport.AsWrittenAgrees | components/ImportModal.tsx:51-58 | the source's numbering and the file numbering differ only in the row number of an error, and the source's number is never larger |
| CsvImport.NumbersGrow | components/ImportModal.tsx:41 | the i-th kept line (from 0) is at least line i + 1 of the file |
| CsvImport.BlankLineShiftsRowNumber | components/ImportModal.tsx:41-58 | with a blank second line and a bad third line, the source reports row 2 while the bad line is line 3 |
| CsvImport.RenumberedTwo | components/ImportModal.tsx:58 | renumbering kept lines 1 and 3 calls the second one row 2 |
| CsvImport.ImportShape | components/ImportModal.tsx:41-61 | both readings give one row per non-blank line below the header, and report missing columns exactly when the first non-blank line names no usable layout |
| CsvImport.ImportOfKept | components/ImportModal.tsx:41-61 | both readers assemble the same kept lines and differ only in how they number them |
| CsvImport.KeptOfThree | components/ImportModal.tsx:41 | a three-line file with a blank middle line keeps lines 1 and 3 |
| CsvImport.AssembleBadSecond | components/ImportModal.tsx:57-58 | a header and one unreadable line fail under that line's number |
| CsvImport.KeptThree | components/ImportModal.tsx:41 | of three lines whose middle one fails the test, lines 1 and 3 are kept |
| CsvImport.RowLines | components/ImportModal.tsx:51-52 | one rendered line per record, in order |
| CsvImport.LayoutOfKeys | components/ImportModal.tsx:42-45 | a header of three cells keyed `ledger`, `closingcy` and `closingpy` gives the standard layout |
| CsvImport.KeysOfThree | components/ImportModal.tsx:42 | the keys of a three-cell header are the three cells' keys |
| CsvImport.StandardLayout | components/ImportModal.tsx:43-45 | the standard keys give the columns 0, 1 and 2 |
| CsvImport.StandardHeaderExample | components/ImportModal.tsx:42-49 | the header `ledger,closingCy,closingPy` names the standard layout |
| CsvImport.SplitLedgerHeader | components/ImportModal.tsx:42 | that header splits at its commas into its three names |
| CsvImport.LedgerKey | components/ImportModal.tsx:42-43 | the key of `ledger` is `ledger` |
| CsvImport.ClosingCyKey | components/ImportModal.tsx:42-44 | the key of `closingCy` is `closingcy` |
| CsvImport.ClosingPyKey | components/ImportModal.tsx:42-45 | the key of `closingPy` is `closingpy` |
| CsvImport.LedgerHeaderOneLine | components/ImportModal.tsx:41 | that header is a single line |
| CsvImport.FirstIndex | components/ImportModal.tsx:43 | the first position holding a name is what the lookup returns |
| CsvImport.RowReadsBack | components/ImportModal.tsx:52-60 | a rendered record reads back as itself under the standard layout |
| CsvImport.ReadsThree | components/ImportModal.tsx:53-60 | three cells holding a plain name and two readable numbers give that record |
| CsvImport.ReadsFields | components/ImportModal.tsx:57-60 | a present name and two numbers make a record |
| CsvImport.RowLineShape | components/ImportModal.tsx:41 | a rendered record line has no line break and is not blank |
| CsvImport.RenderLines | components/ImportModal.tsx:41 | no line of a rendering is dropped, and each keeps its position |
| CsvImport.AssembleAll | components/ImportModal.tsx:51-61 | a header with a layout followed by lines that all read gives exactly their records |
| CsvImport.ImportRender | components/ImportModal.tsx:40-61 | importing the rendering of records with plain names, under a standard header and a number format that reads back, gives the records back in order |
| Text.LowerChar | utils/fuzzyMatch.ts:47 | a lower-cased character is never upper case, and other characters are kept |
| Text.Lower | utils/fuzzyMatch.ts:47 | lower-casing keeps the length and maps every character |
| Text.LowerIdempotent | utils/fuzzyMatch.ts:91 | lower-casing twice is lower-casing once |
| Text.TrimStart | utils/fuzzyMatch.ts:47 | leading trimming leaves a suffix that does not start with white space, and only white space is removed |
| Text.TrimEnd | utils/fuzzyMatch.ts:47 | trailing trimming leaves a prefix that does not end with white space, and only white space is removed |
| Text.Trim | utils/fuzzyMatch.ts:47-48 | a trimmed string is no longer than the original and has no white space at either end |
| Text.TrimSlice | components/ImportModal.tsx:53 | the trimmed string is a slice of the original |
| Text.TrimEmptyIff | components/ImportModal.tsx:41 | a line trims to nothing exactly when it is all white space |
| Text.TrimmedFixed | components/ImportModal.tsx:53 | a string with no white space at either end trims to itself |
| Text.StripSpaces | components/ImportModal.tsx:42 | removing white space keeps exactly the other characters, in order, none of them white space |
| Text.StripSpacesFixed | components/ImportModal.tsx:42 | a string without white space is left alone |
| Text.StripSpacesKeeps | components/ImportModal.tsx:42 | removing white space keeps any property every character has |
| Text.TrimFrame | utils/fuzzyMatch.ts:47 | the trimmed string is a stretch of the original, with only white space before and after it |
| Text.LowerSlice | utils/fuzzyMatch.ts:47 | lower-casing a stretch is the same stretch of the lower-cased string |
| Text.StripLowerTrim | components/ImportModal.tsx:42 | trimming before stripping the white space changes nothing: the key is the lower-cased cell without its white space |
| Text.LowerKeepsSpace | utils/fuzzyMatch.ts:91 | lower-casing turns no other character into white space |
| Text.Split | components/ImportModal.tsx:52 | splitting gives at least one piece, none holding the separator |
| Text.JoinSplit | components/ImportModal.tsx:41 | joining the pieces of a split gives the text back |
| Text.SplitJoin | components/ImportModal.tsx:41 | splitting a join of separator-free pieces gives the pieces back |
| Text.SplitSeparatorFree | components/ImportModal.tsx:52 | a string without the separator is one piece |
| Text.SplitPrefix | components/ImportModal.tsx:52 | a separator-free prefix before the separator becomes the first piece |
| Text.SplitThree | components/ImportModal.tsx:52 | three separator-free pieces joined by the separator split back into the three |
| Seqs.Find | utils/autoMapping.ts:32 | `find`: the first element passing the test; none exactly when no element passes |
| Seqs.Filter | components/MappingWorkbench.tsx:29 | `filter`: the elements passing the test, each one of the input; every passing element is kept |
| Seqs.FilterConcat | pages/SchedulesPage.tsx:286 | filtering keeps relative order: filtering a concatenation concatenates the filtered parts |
| Seqs.FilterSplit | components/MappingWorkbench.tsx:29 | cutting a sequence anywhere cuts its filtered form at the same place |
| Seqs.FilterFirst | utils/autoMapping.ts:62-63 | the head of a filtered list is the first element of the original that passes the test |
| Seqs.FilterPartition | components/MappingWorkbench.tsx:29-30 | a filter and its complement split the sequence as a multiset |
| Seqs.FilterIncreasing | utils/fuzzyMatch.ts:90-120 | filtering keeps strictly increasing keys strictly increasing |
| Seqs.FilterFrame | components/ImportModal.tsx:42 | filtering a stretch outside which every element is rejected is filtering the whole |
| Seqs.Pick | utils/fuzzyMatch.ts:71-80 | the running-best loop from 0: the winner passes the test with a positive key, no passing element beats it, every earlier passing element is strictly worse; none exactly when no passing element has a positive key |
| GenericSchedule.Set | components/schedules/GenericSchedule.tsx:17 | the named field takes the value; the id and the other fields are kept |
| GenericSchedule.Update | components/schedules/GenericSchedule.tsx:16-18 | the length, order and ids are kept; rows with the id get the value in the named field; nothing else changes |
| GenericSchedule.AddRow | components/schedules/GenericSchedule.tsx:20-23 | one new row with a blank description and amounts "0" is appended; the existing rows are unchanged |
| GenericSchedule.RemoveRow | components/schedules/GenericSchedule.tsx:25-27 | no row with the id is left, every other row is kept, nothing new appears, and the kept rows stay in order (cutting the schedule anywhere cuts the result there) |
| GenericSchedule.RemoveOrder | components/schedules/GenericSchedule.tsx:25-27 | removing by id keeps the remaining rows in order: removing from two parts is removing from each |
| GenericSchedule.UpdateAbsent | components/schedules/GenericSchedule.tsx:16-18 | editing an absent id changes nothing |
| GenericSchedule.RemoveAbsent | components/schedules/GenericSchedule.tsx:25-27 | removing an absent id changes nothing |
| GenericSchedule.RemoveCount | components/schedules/GenericSchedule.tsx:25-27 | removal drops exactly as many rows as carry the id |
| GenericSchedule.RemoveAfterAdd | components/schedules/GenericSchedule.tsx:20-27 | adding a row with a fresh id and removing it restores the schedule |
| GenericSchedule.RemoveAfterUpdate | components/schedules/GenericSchedule.tsx:16-27 | removing a row discards any edit made to it |
| GenericSchedule.UpdateTwice | components/schedules/GenericSchedule.tsx:16-18 | making the same edit twice is making it once |
| SchedulesPage.SelectionFor | pages/SchedulesPage.tsx:300 | the selection found for a note carries the note's id, and no earlier selection does (`find` returns the first); none exactly when no selection does |
| SchedulesPage.ScheduleNav | pages/SchedulesPage.tsx:286-304 | an entry is shown exactly when it is in the list and passes the visibility rule |
| SchedulesPage.HeadersKept | pages/SchedulesPage.tsx:287 | every header is shown |
| SchedulesPage.NavOrder | pages/SchedulesPage.tsx:286-304 | the filter keeps the entries' relative order |
| SchedulesPage.FundsLinkShown | pages/SchedulesPage.tsx:290-292 | the partners' funds link is shown exactly for LLPs and non-corporate entities |
| SchedulesPage.CompanyLinksShown | pages/SchedulesPage.tsx:293-295 | share capital and other equity are shown exactly for companies |
| SchedulesPage.NoteLinkShown | pages/SchedulesPage.tsx:298-302 | any other link tied to a note is shown exactly when no selection has the note's id or the first one that does is switched on |
| SchedulesPage.PlainLinkShown | pages/SchedulesPage.tsx:297-303 | a link tied to no note that is neither the funds link nor a company-only entry always shows |
| SchedulesPage.PageLastLinkShown | pages/SchedulesPage.tsx:279-302 | on the page's own list, the link to events after the balance sheet date shows exactly when its note is unknown or its first selection is switched on |
| SchedulesPage.ViewId | pages/SchedulesPage.tsx:330-333 | the partners' funds link opens the owners' view for a non-corporate entity; every other link opens its own id |
| SchedulesPage.Finalize | pages/SchedulesPage.tsx:76-79 | finalising sets the lock and keeps the schedules |
| SchedulesPage.Edit | pages/SchedulesPage.tsx:81-83 | editing clears the lock and keeps the schedules |
| SchedulesPage.FinalizeEditInverse | pages/SchedulesPage.tsx:76-83 | editing undoes finalising and finalising undoes editing |
| NotesToAccounts.Insert | components/reports/NotesToAccounts.tsx:125 | inserting adds exactly the one note |
| NotesToAccounts.InsertSorted | components/reports/NotesToAccounts.tsx:125 | inserting into a sorted list keeps it sorted |
| NotesToAccounts.SortedCons | components/reports/NotesToAccounts.tsx:125 | a note no later than every element of a sorted list can go in front of it |
| NotesToAccounts.Sort | components/reports/NotesToAccounts.tsx:125 | the sort gives a permutation of its input in non-decreasing order |
| NotesToAccounts.InsertStable | components/reports/NotesToAccounts.tsx:125 | inserting keeps the note ahead of every note of its own order |
| NotesToAccounts.SortStable | components/reports/NotesToAccounts.tsx:125 | the sort is stable: the notes of any one order keep their input order |
| NotesToAccounts.SelectedAndSorted | components/reports/NotesToAccounts.tsx:123-125 | exactly the selected notes, as a permutation of them, in non-decreasing order |
| NotesToAccounts.SelectedStable | components/reports/NotesToAccounts.tsx:123-125 | selected notes of equal order keep the order of the selections |
| NotesToAccounts.FilterSorted | components/reports/NotesToAccounts.tsx:132-137 | skipping notes keeps a sorted list sorted |
| NotesToAccounts.ReportContents | components/reports/NotesToAccounts.tsx:132-143 | a note is rendered exactly when it is selected and has a renderer and a non-zero number; the i-th entry is the i-th such note in sort order, with its own title and number |
| NotesToAccounts.Report | components/reports/NotesToAccounts.tsx:132-143 | every entry carries a note's own title and its number, and that number is not 0 |
| NotesToAccounts.SkippedNotes | components/reports/NotesToAccounts.tsx:133-137 | a note without a renderer, or whose number is missing or 0, is not rendered |

## Left out

- `parseFloat` and the number format are parameters (`parse: string -> Option<real>`, where `None` stands for `NaN`, and `format`). The JavaScript number grammar is not modelled.
- Similarity and confidence are exact reals. IEEE rounding is not modelled, so a score written in the code as `1 - d/m` is exact here.
- Case mapping covers ASCII letters only. `toLowerCase` on other scripts is not modelled.
- The `reasoning` text of a suggestion, built with `toFixed` and string templates, is replaced by a `Strategy` tag saying which step produced it.
- The network and the AI service are left out: `getMappingSuggestion` and everything under backend/src/ai. The panel receives the service's answer as a parameter of `ReceiveSuggestion`.
- The mapping panel's declared props take a single `ledger`, while the workbench passes a list of ledgers. The panel is modelled as its own file declares it.
- MappingPanel.ApplySuggestion: its contract states that a taken grouping hangs under the minor head, that is, the form stays `Consistent`. It does not state that a non-empty grouping implies a non-empty minor head. That fails when the masters hold a minor head whose code is the empty string.
- React mechanics are not modelled: hook closures, the stale `currentIndex` captured by `useCallback`, the order of effects, the file reader and the dropzone. The fresh id of a new schedule row (`uuidv4`) is a parameter.
- The `isFinalized` switch that disables the schedule editors is not modelled; only the switch itself is (`Finalize`/`Edit`).
- The note numbers come from `getNoteNumberMap` in utils/noteUtils.ts, which is not part of this model. The numbers, and the titles of the renderable notes, are parameters of the report.
- `getApplicableNotes` and `getEntityLevel`: the navigation filter does not read their result.
- The other schedule editors repeat the row editing of the generic schedule inside their markup; only the generic schedule is modelled.
- Report totals, the statements and the number formatting are left out: they are floating-point sums and `Intl` formatting.
- CsvImport.ImportRender: the round trip is stated for any header whose layout is the standard one (`ledger`, `closingCy`, `closingPy` in that order), not for a fixed header text. LayoutOfKeys says which three-cell headers qualify.
- CsvImport.ImportAsWritten: the error is a datatype carrying the row number, not the message text.
- History.SetState: the check for an unchanged state (hooks/useHistoryState.ts:16) compares `JSON.stringify` strings; the model uses structural equality. The two differ on key order (equal objects built in another order compare unequal), on `undefined` fields and functions (dropped by `JSON.stringify`, so different states compare equal), and on `NaN` and infinities (serialised as `null`). Serialisation is not modelled.
- Levenshtein.Distance: lengths and positions count Unicode scalar values (Dafny's `char`), while JavaScript's `length` and `str[i]` count UTF-16 code units. A character outside the Basic Multilingual Plane is one position here and two in the code, so distances can differ for such names.
- FuzzyMatch.Similarity: for the same reason the score can differ for names with characters outside the Basic Multilingual Plane. For `"💰"` against `"💵"` the code computes 1 - 1/2 = 0.5 (two code units each, one differing), while the model computes 0. The match thresholds can then decide differently. UTF-16 encoding is not modelled.

## Findings

| source | as written | input that shows it | evidently intended | confidence | as-written member | corrected member |
|---|---|---|---|---|---|---|
| components/ImportModal.tsx:41-58 | the bad-row message numbers rows by their position after blank lines are dropped (`i + 2`) | `"ledger,closingCy\n\nCash,x"` with `x` not a number: the message cites row 2, which is the blank line; the bad line is line 3 | the row number should be the line of the file the user can find | medium, not executed | CsvImport.BlankLineShiftsRowNumber | CsvImport.ImportBadRow |
