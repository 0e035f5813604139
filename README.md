# Advent of Code 2024, days 1 to 6, in Dafny

A Dafny model of the first six puzzle solutions of a Rust Advent of Code
2024 repository. It also models the `count_occurrences` helper from its
shared library. Each day reads a puzzle input and computes two answers:

- **Day 1, historian hysteria.** The distance between two location-id
  lists is found by sorting both, pairing them up and adding the absolute
  differences. The similarity score weights every id of the first list by
  how often it occurs in the second.
- **Day 2, red-nosed reports.** A report is safe when its levels move in
  one direction, by steps of 1 to 3. The problem dampener lets a report
  with one bad level through after removing a single level.
- **Day 3, mull it over.** Corrupted memory is tokenized (keywords
  `mul`, `do()` and `don't()`, parentheses, commas and number literals of
  up to three digits). A small parser then keeps the well-formed
  multiplications, switching them on and off with `do`/`don't`. The
  products are summed.
- **Day 4, ceres search.** Part 1 counts the places where "XMAS" reads
  in any of eight directions. Part 2 counts X-shaped crossings of two
  "MAS" diagonals.
- **Day 5, print queue.** Page-ordering rules `a|b` and updates are read.
  Each update is rebuilt in one pass: a ruled page is inserted in front
  of the first already placed page it must precede, and pages placed
  earlier are not moved again, so the result can still break a rule. The two parts sum the middle pages of the
  correctly ordered and of the re-ordered updates.
- **Day 6, guard gallivant.** A guard walks a grid, turning right at
  obstacles, until leaving the map. Part 1 counts the distinct cells
  visited. The repository's part 2 heuristic is modelled as written: it
  looks for rectangles of three recorded turns and examines the fourth
  corner. The day 6 reader takes the guard-glyph table as a parameter.
  `GlyphDirectionAsWritten` is the table `read_input` has, which reads `>`
  as Left; `GlyphDirection` is the corrected one (see Findings).

Pure computations become functions with lemmas. The source's loops become
methods with loop invariants, proved against those functions. The
tokenizer, the parser, the day 6 map and the day 6 guard update their
fields in place, so they become classes. Rust panics (`expect`,
`unwrap`, `panic!`, out-of-range indexing) are modelled as the `Panic`
case of a `Result`. Integers are unbounded, except where parsing checks a range.

Files:

- `wrappers.dfy`: `Option` and `Result`.
- `strings.dfy`: splitting, trimming and decimal number parsing as Rust's
  `str::split`, `str::trim` and `str::parse` do them, with round-trip
  lemmas.
- `lib.dfy`: `count_occurrences`.
- `day01.dfy` to `day06.dfy`: one module per day.

## Model

| member | source | states |
|---|---|---|
| Lib.CountOccurrences | src/lib.rs:6-8 | the count is at most the list length, and it is zero exactly when the element is absent |
| Lib.CountAppend | src/lib.rs:6-8 | counting distributes over concatenation |
| Lib.CountIsIndexCount | src/lib.rs:6-8 | the count equals the number of indices holding the element |
| Lib.CountIsMultiplicity | src/lib.rs:6-8 | the count equals the element's multiplicity in the list's multiset |
| Lib.CountPermutation | src/lib.rs:6-8 | lists that are permutations of each other have the same counts |
| Lib.CountGolden | src/day01.rs:91-101 | the unit test's counts: 3 occurs three times in the second test list, 4 once and 1 never |
| Lib.CountCons | src/lib.rs:6-8 | a list with a known head counts that head once more than its tail, exactly when the head is the element |
| Lib.GoldenCounts | src/day01.rs:91-101 | the second test list, built element by element, holds 3 three times and 4 once |
| Strings.Split | src/day01.rs:60-64 | `str::split` yields at least one piece |
| Strings.JoinSplit | src/day01.rs:60-64 | joining the pieces of a split with the separator gives back the original string |
| Strings.SplitPiecesFree | src/day05.rs:61-65 | no piece of a split contains the separator |
| Strings.SplitCount | src/day05.rs:54-58 | a split yields one piece more than the separator occurs |
| Strings.LeadingWhitespace | src/day05.rs:56 | the whitespace prefix that `trim` removes is maximal |
| Strings.TrailingWhitespace | src/day05.rs:63 | the whitespace suffix that `trim` removes is maximal |
| Strings.TrimIsSlice | src/day05.rs:63 | `trim` yields a contiguous slice of its input that neither starts nor ends with whitespace |
| Strings.DigitsValueBound | src/day05.rs:64 | a run of n digits denotes a number below 10^n |
| Strings.ShowNat | src/day02.rs:27-31 | the decimal rendering of a number is a non-empty run of digits |
| Strings.DigitsValueShow | src/day02.rs:27-31 | reading back a rendered number's digits gives the number |
| Strings.ParseShowNat | src/day05.rs:64 | parsing the rendering of a natural number gives it back |
| Strings.ParseShowInt | src/day01.rs:62 | parsing the rendering of an integer, sign included, gives it back |
| Strings.ParseIntSome | src/day01.rs:62 | parsing an integer succeeds exactly for an optional sign followed by one or more digits |
| Strings.ParseI32 | src/day01.rs:62 | an `i32` parse yields only values between -2^31 and 2^31-1, and then agrees with the unbounded parse |
| Strings.ParseShowI32 | src/day02.rs:27-31 | parsing the rendering of an `i32` value gives it back, and the rendering of any integer outside that range is rejected |
| Day01.Insert | src/day01.rs:29-30 | insertion grows the list by one |
| Day01.Sort | src/day01.rs:29-30 | sorting keeps the length |
| Day01.InsertSorted | src/day01.rs:29-30 | inserting into a sorted list keeps it sorted and adds exactly the inserted element |
| Day01.SortSorted | src/day01.rs:29-30 | the sort's output is sorted and a permutation of its input |
| Day01.SortedUnique | src/day01.rs:29-30 | two sorted permutations of one multiset are equal, which makes the unstable sort's result unique |
| Day01.SortOfPermutation | src/day01.rs:29-30 | permutations of each other sort to the same list |
| Day01.SumAbsDiff | src/day01.rs:32-39 | a sum of absolute differences is never negative |
| Day01.CalculateListDistance | src/day01.rs:24-40 | the result is `None` exactly when the lists differ in length, and otherwise it is non-negative |
| Day01.DistanceIsSortedPairing | src/day01.rs:24-40 | the distance is the sum of absolute differences of any sorted rearrangements of the two lists |
| Day01.DistancePermutation | src/day01.rs:24-40 | the distance depends only on the multisets of the two lists |
| Day01.SumAbsDiffSymmetric | src/day01.rs:32-39 | the pairwise sum is symmetric in its two lists |
| Day01.DistanceSymmetric | src/day01.rs:24-40 | swapping the two lists does not change the distance |
| Day01.SumAbsDiffZero | src/day01.rs:32-39 | the pairwise sum is zero exactly when the lists are equal |
| Day01.DistanceZero | src/day01.rs:24-40 | the distance of equal-length lists is zero exactly when they are permutations of each other |
| Day01.CalculateSimilarityScore | src/day01.rs:42-51 | the loop computes the sum over the first list of each id times its count in the second list |
| Day01.WeightIsScaledCount | src/day01.rs:42-51 | one id of the second list contributes the id times its count in the first list |
| Day01.SimilarityAppendRight | src/day01.rs:42-51 | appending an id to the second list adds that id's weight |
| Day01.SimilaritySymmetric | src/day01.rs:42-51 | the similarity score is symmetric in its two lists |
| Day01.SimilarityOfEmpty | src/day01.rs:42-51 | against an empty second list the score is zero |
| Day01.ExtractLists | src/day01.rs:53-70 | the parse succeeds exactly when exactly two of each line's space-separated pieces parse as integers, and the two lists then hold each line's first and second id in line order |
| Day01.PairLines | src/day01.rs:59-68 | for any line reader, the loop succeeds exactly when each line yields exactly two ids, and the lists then hold the first and second ids in line order |
| Day01.DistanceGolden | src/day01.rs:79-82 | the unit test's lists are 11 apart |
| Day01.SortFirstTestList | src/day01.rs:79-82 | the first test list sorts to [1, 2, 3, 3, 3, 4] |
| Day01.SortSecondTestList | src/day01.rs:79-82 | the second test list sorts to [3, 3, 3, 4, 5, 9] |
| Day01.SortStep | src/day01.rs:29-30 | sorting a list with a head inserts the head into the sorted tail |
| Day01.SimilarityGolden | src/day01.rs:85-88 | the unit test's lists have similarity score 31 |
| Day01.SimilarityPrefixes | src/day01.rs:85-88 | given the test list's counts, the similarity score is 31 |
| Day02.PairCountsCover | src/day02.rs:105-131 | every adjacent pair of a report is exactly one of ascending, descending or level |
| Day02.GetDirection | src/day02.rs:105-131 | the direction is Increasing or Decreasing by majority of the adjacent pairs, and never when more than one pair is level |
| Day02.FirstBadFrom | src/day02.rs:53-79 | the index found is the first transition that is not a step of 1 to 3 in the report's direction, or none exists |
| Day02.Remove | src/day02.rs:97-103 | removing a level keeps the others in order |
| Day02.CheckReport | src/day02.rs:41-86 | the method decides `IsSafe`, and reports with fewer than two levels are never safe |
| Day02.FindBadTransition | src/day02.rs:53-79 | the window scan returns the first transition that is not a step of 1 to 3 in the report's direction, as the pair of its two indices, or none when every transition is valid |
| Day02.FirstBadAfterGoodSteps | src/day02.rs:53-79 | after valid steps up to i, a bad step at i is the first bad one, and reaching the last level means there is none |
| Day02.SafeWithBadStep | src/day02.rs:53-79 | with a bad transition at i, an undampened report is safe exactly when removing level i or level i+1 makes it safe |
| Day02.CheckWithoutBadTransition | src/day02.rs:88-95 | the result is whether removing either level of the bad pair makes the report safe |
| Day02.CheckWithoutElement | src/day02.rs:97-103 | the result is whether the report without that level is safe with the dampener used up |
| Day02.SafeAfterRemoval | src/day02.rs:41-86 | once a level was removed, a report is safe exactly when it has a direction and every transition in it is valid |
| Day02.AtMostOneRemoval | src/day02.rs:72-74 | a report the dampener accepts is safe as it is, or after removing one level |
| Day02.IncreasingCounts | src/day02.rs:105-131 | a report climbing by steps of 1 to 3 has only ascending pairs |
| Day02.DecreasingCounts | src/day02.rs:105-131 | a report falling by steps of 1 to 3 has only descending pairs |
| Day02.MonotoneIsSafe | src/day02.rs:41-86 | a report moving in one direction by steps of 1 to 3 is safe with or without the dampener |
| Day02.CountSafeReports | src/day02.rs:21-39 | the loop counts the safe reports, and the count is at most the number of reports |
| Day02.ParseShownReport | src/day02.rs:27-31 | a report of `i32` levels rendered as space-separated numbers parses back to itself |
| Day02.ShownPiecesParse | src/day02.rs:27-31 | pieces that render `i32` levels one by one parse back to exactly those levels |
| Day02.ParsePiecesCons | src/day02.rs:27-31 | a non-blank piece that parses puts its value in front of the levels parsed from the rest |
| Day02.ShownIsNotBlank | src/day02.rs:27-31 | a rendered level is never blank after trimming |
| Day02.CheckAllReports | src/day02.rs:21-39 | the result is an error exactly when some line fails to parse, and otherwise it is the number of safe parsed reports |
| Day02.CountSafeLines | src/day02.rs:21-39 | for any line parser, the loop fails exactly when some line does not parse, and otherwise counts the safe parsed reports |
| Day02.GoldenAllIncreasing | src/day02.rs:157-196 | test_1, test_6 and test_7: [1,2,3,4,5] is safe, while the empty report and [1] are not |
| Day02.GoldenLeadingPair | src/day02.rs:163-166 | test_2: [1,1,3,4,5] is safe |
| Day02.LeadingPairFirstBad | src/day02.rs:163-166 | [1,1,3,4,5] heads upward and its first bad transition is the first one |
| Day02.LeadingPairRest | src/day02.rs:163-166 | [1,3,4,5] is safe with the dampener used up |
| Day02.GoldenTwoEqualPairs | src/day02.rs:169-172 | test_3: [1,1,1,4,5] is unsafe |
| Day02.GoldenInnerPair | src/day02.rs:175-178 | test_4: [1,2,2,4,5] is safe |
| Day02.GoldenPairAndTurn | src/day02.rs:181-184 | test_5: [1,2,2,4,3] is unsafe |
| Day02.GoldenEitherTwo | src/day02.rs:199-202 | test_8: [1,2,2,3] is safe |
| Day02.GoldenLeadingJump | src/day02.rs:205-208 | test_9: [1,5,6,9] is safe |
| Day02.GoldenInnerTurn | src/day02.rs:211-214 | test_10: [1,2,3,2,5] is safe |
| Day02.GoldenDecreasingPair | src/day02.rs:217-220 | test_11: [9,8,6,6,5] is safe |
| Day02.GoldenEarlyTurn | src/day02.rs:223-226 | test_12 and LIST_4: [1,3,2,4,5] is safe |
| Day02.GoldenList1 | src/day02.rs:229-236 | LIST_1 is safe |
| Day02.GoldenList2 | src/day02.rs:229-236 | LIST_2 is unsafe |
| Day02.GoldenList3 | src/day02.rs:229-236 | LIST_3 is unsafe |
| Day02.GoldenList5 | src/day02.rs:229-236 | LIST_5 is safe |
| Day02.GoldenList6 | src/day02.rs:229-236 | LIST_6 is safe |
| Day02.SafeCountSnoc | src/day02.rs:21-39 | appending a report adds one to the count exactly when it is safe |
| Day02.CountFromVerdicts | src/day02.rs:146-154 | six reports with those verdicts contain four safe ones |
| Day02.GoldenLists | src/day02.rs:146-154 | test_all: the six test lists hold four safe reports |
| Day03.DigitRun | src/day03.rs:280-289 | the run measured is maximal and consists of digits |
| Day03.FirstToken | src/day03.rs:274-313 | each token consumes at least one character and stays within the input |
| Day03.Tokenizer.constructor | src/day03.rs:266-272 | a new tokenizer is at the start of its phrase with no tokens |
| Day03.Tokenizer.Next | src/day03.rs:274-313 | the character iterator yields the next character, or nothing at the end |
| Day03.Tokenizer.MatchKeyword | src/day03.rs:319-328 | the keyword recognised is the one spelled from the current character on |
| Day03.Tokenizer.Tokenize | src/day03.rs:274-313 | tokenizing succeeds exactly when the specification lexer does, and then it appends exactly the lexed tokens |
| Day03.Tokenizer.ReadToken | src/day03.rs:274-313 | one pass of the tokenize loop reads the token the lexer specifies, or panics where it does |
| Day03.Tokenizer.ReadLiteral | src/day03.rs:280-289 | after a digit, the literal read is the maximal run of at most three digits, and a fourth digit panics where the lexer does |
| Day03.Tokenizer.ReadKeyword | src/day03.rs:290-310 | after a character that is no digit and no delimiter, the token read is the keyword spelled there with its whole name consumed, or `Unknown` |
| Day03.Tokenizer.SanitizeUnknownTokens | src/day03.rs:315-317 | the unknown tokens are dropped and the rest kept in order |
| Day03.PrependAssoc | src/day03.rs:274-313 | prepending token runs is associative |
| Day03.PrependNone | src/day03.rs:274-313 | a panic in the rest of the input stays a panic |
| Day03.DigitRunAtLeast | src/day03.rs:280-289 | a run of digits is at least as long as any digit prefix |
| Day03.DigitRunExact | src/day03.rs:280-289 | a run of digits ends at the first non-digit |
| Day03.KeywordAtShift | src/day03.rs:319-328 | keyword recognition depends only on the text from the current position |
| Day03.Pow10Small | src/day03.rs:280-289 | three digits stay below 1000 |
| Day03.FirstTokenFacts | src/day03.rs:274-313 | the first token panics exactly at a run of four or more digits; delimiters are single characters; literals have at most three digits and are maximal |
| Day03.KeywordLetters | src/day03.rs:290-310 | a keyword is spelled by letters and punctuation, never digits or delimiters |
| Day03.LexSomeIff | src/day03.rs:274-313 | tokenizing panics exactly when the text holds a run of four or more digits |
| Day03.LexDelimiterCount | src/day03.rs:274-313 | each delimiter character yields exactly one delimiter token |
| Day03.FirstTokenDelimiterCount | src/day03.rs:274-313 | the first token is a given delimiter exactly as often as the characters it consumes hold that delimiter |
| Day03.LexLiteralsSmall | src/day03.rs:280-289 | every number literal is below 1000 |
| Day03.Known | src/day03.rs:315-317 | sanitizing leaves no unknown token and never lengthens the list |
| Day03.KnownAppend | src/day03.rs:315-317 | sanitizing distributes over concatenation |
| Day03.KnownCount | src/day03.rs:315-317 | sanitizing keeps every known token as often as it occurred |
| Day03.KnownFixed | src/day03.rs:315-317 | a list without unknown tokens is left as it is |
| Day03.Operation.SetNum1 | src/day03.rs:94-96 | setting the first number changes only the first number |
| Day03.Operation.SetNum2 | src/day03.rs:98-103 | setting the second number after the first makes a complete multiplication |
| Day03.NewOperation | src/day03.rs:86-92 | a new operation has the keyword and no numbers |
| Day03.Nice.constructor | src/day03.rs:128-136 | a new parser holds the tokens, with no operation, an `Unknown` last token and `do` mode on |
| Day03.Nice.Parse | src/day03.rs:138-179 | the loop runs the parser's step function over all the tokens |
| Day03.Nice.ParseBlockOpen | src/day03.rs:214-218 | an opening parenthesis keeps a fresh keyword and drops anything else |
| Day03.Nice.ParseBlockClose | src/day03.rs:220-229 | a closing parenthesis records an enabled complete `mul`, applies `do`/`don't`, and ends the operation |
| Day03.Nice.ParseSeperator | src/day03.rs:231-235 | a comma after the first number keeps the operation, and otherwise drops it |
| Day03.Nice.ParseNumLiteral | src/day03.rs:237-257 | a number after `(` sets the first number, after `,` the second, and anything else drops the operation |
| Day03.StepOperations | src/day03.rs:220-229 | only a closing parenthesis in `do` mode after a complete `mul` records an operation |
| Day03.StepDoMode | src/day03.rs:220-229 | only `do()` and `don't()` switch the mode |
| Day03.StepCurrent | src/day03.rs:138-179 | every step remembers its token, and the operation in progress is fresh, updated by a number in the right place, or kept by `(` or `,` |
| Day03.RunKeepsOperations | src/day03.rs:138-179 | parsing only ever appends to the recorded operations |
| Day03.RunWellFormed | src/day03.rs:138-179 | every recorded operation is a complete multiplication |
| Day03.RunNumbersSmall | src/day03.rs:237-257 | with literals below 1000 every recorded number stays below 1000 |
| Day03.OperationsSum | src/day03.rs:66-76 | the sum panics only when a non-`mul` operation is present, and is `None` only when one is incomplete |
| Day03.CalculateOperations | src/day03.rs:66-76 | the loop computes the specified sum |
| Day03.OperationsSumComplete | src/day03.rs:66-76 | complete multiplications always sum; when every number is below 1000, the sum lies between 0 and 998001 times their number |
| Day03.ProductBound | src/day03.rs:113-115 | two three-digit numbers multiply to at most 998001 |
| Day03.TextSum | src/day03.rs:40-64 | for text that tokenizes, the recorded operations are complete multiplications whose sum exists and lies between 0 and 998001 times their number |
| Day04.GetAtPosition | src/day04.rs:67-70 | a character is returned exactly when the row and column exist, and it is that cell |
| Day04.CheckedMove | src/day04.rs:221-227 | a move succeeds exactly when it stays non-negative, and then it adds the offset |
| Day04.CheckDirection | src/day04.rs:102-130 | the walk succeeds exactly when the target word reads from the start in that direction |
| Day04.SpelledCount | src/day04.rs:78-100 | at most the number of directions tried can match |
| Day04.CheckAtX | src/day04.rs:78-100 | the count is the number of the eight directions that spell "XMAS", at most 8 |
| Day04.DirectionsAreNeighbours | src/day04.rs:81-90 | the eight directions are the eight neighbouring offsets, each exactly once |
| Day04.SpelledCountAtOther | src/day04.rs:74-76 | no direction spells "XMAS" from a cell not holding `X` |
| Day04.LoopThroughInput | src/day04.rs:47-65 | the nested loop adds the action's value over every cell that is not skipped |
| Day04.GridSumCongruent | src/day04.rs:47-65 | two loops whose per-cell contributions agree give the same total |
| Day04.RowSumCongruent | src/day04.rs:47-65 | two row loops whose per-cell contributions agree give the same total |
| Day04.Part1Parse | src/day04.rs:74-76 | part 1 is the "XMAS" count over the `X` cells, which equals the count over all cells |
| Day04.Part1CountsEveryStart | src/day04.rs:74-76 | skipping the cells without `X` loses no occurrence |
| Day04.CheckAtM | src/day04.rs:138-198 | each cell contributes 0 or 1 |
| Day04.CheckAtMIsXMas | src/day04.rs:138-198 | from an `M` or an `S`, a crossing is counted exactly when both diagonals read "MAS" either way |
| Day04.CheckAtMNeedsTheFilter | src/day04.rs:138-198 | `check_at_m` leaves the corner to its caller: from an `X` corner it can count a square that is no crossing |
| Day04.Part2Parse | src/day04.rs:134-136 | part 2 is the number of X-shaped "MAS" crossings in the grid |
| Day04.Part2CountsCrossings | src/day04.rs:134-136 | filtering on `M` and `S` corners counts exactly the crossings |
| Day05.Page.AddDependantPage | src/day05.rs:143-145 | the page keeps its number and gains the new dependant |
| Day05.WithDependant | src/day05.rs:136-141 | a new page has that number and exactly the one dependant |
| Day05.FirstIn | src/day05.rs:99-102 | the index found is the first printed page that the rule lists, or none is listed |
| Day05.InsertAt | src/day05.rs:105 | the page goes in at the index with the others shifted in order |
| Day05.ParseWithRules | src/day05.rs:93-126 | the loop's result is the specified one: a panic on even lengths, otherwise the middle of the reordered update when the kind matches |
| Day05.ReorderPermutation | src/day05.rs:97-112 | re-ordering prints exactly the update's pages |
| Day05.HitsPermutation | src/day05.rs:99-102 | whether any page is listed does not depend on the order |
| Day05.ReorderIncorrectIff | src/day05.rs:97-112 | an update is marked incorrect exactly when some page comes after a page that its rule says it precedes |
| Day05.ReorderCorrectIdentity | src/day05.rs:97-112 | a correct update is printed unchanged |
| Day05.ExactlyOneKind | src/day05.rs:114-125 | both kinds panic exactly on even lengths; otherwise exactly one kind yields the middle page |
| Day05.PartsAddUp | src/day05.rs:24-34 | the two parts panic exactly when some update has even length, and otherwise add up to the sum of all middles |
| Day05.Answers | src/day05.rs:18-38 | panics exactly when reading panics or some update has an even length; otherwise the two answers add up to the sum of all middles |
| Day05.Numbers | src/day05.rs:54-58 | a successful parse yields one number per piece |
| Day05.AddRule | src/day05.rs:67-77 | adding rule a precedes b adds exactly that pair, keyed by a, leaving the rest |
| Day05.ReadInput | src/day05.rs:40-81 | reading panics exactly when the specification does, and otherwise returns its rules and updates |
| Day05.ReadLine | src/day05.rs:48-78 | one line is handled by the specification's step |
| Day05.PanicStays | src/day05.rs:47-79 | once a line panics the whole read panics |
| Day05.FirstBlank | src/day05.rs:48-51 | the first blank line is found, or there is none |
| Day05.FirstBlankSnoc | src/day05.rs:48-51 | one more line moves the first blank only if none was found before |
| Day05.LinesWithLayout | src/day05.rs:47-79 | for any line parsers, reading succeeds exactly when every line before the first blank is a rule and every non-blank line after it is an update; the updates are those lines in order |
| Day05.LinesWithRules | src/day05.rs:47-79 | for any line parsers, the rules read are exactly the pairs of the rule lines, each keyed by its first page |
| Day05.RulesAfterRule | src/day05.rs:67-77 | a rule line adds exactly its pair to the rules read |
| Day05.RulesUnchanged | src/day05.rs:53-59 | an update line leaves the rules read unchanged |
| Day05.ReadLinesLayout | src/day05.rs:40-81 | the real input reader accepts exactly the layout above and collects exactly its rules and updates |
| Day05.GoldenInsertion | src/day05.rs:99-108 | with 97 required before 75, the update [75, 97, 47] is incorrect with middle page 75 |
| Day05.ReorderCanBreakRule | src/day05.rs:97-112 | with 3 before 1 and 2 before 3, the update [1, 2, 3] is rebuilt as [3, 1, 2], which still prints 2 after 3 |
| Day05.BrokenRuleTwoPages | src/day05.rs:99-108 | in that example page 2 finds no page to precede and is appended after 1 |
| Day06.Direction.Turn | src/day06.rs:386-395 | turning changes the direction |
| Day06.TurnCycle | src/day06.rs:386-395 | four right turns return to the start, and fewer never do |
| Day06.TurnRotatesOffset | src/day06.rs:405-417 | turning right rotates the step offset by a quarter turn clockwise on screen |
| Day06.TurnTwiceIsBehind | src/day06.rs:386-395 | turning twice faces back to the cell one came from |
| Day06.Guard.constructor | src/day06.rs:397-402 | a new guard has the position and direction given |
| Day06.Guard.LookAhead | src/day06.rs:405-417 | the cell ahead is the neighbour in the guard's direction, at distance one |
| Day06.Guard.MoveAhead | src/day06.rs:418-430 | the guard moves to the cell it looked at and keeps its direction |
| Day06.EntryInsert | src/day06.rs:256-268 | inserting into a keyed set adds the value under the key and changes no other key |
| Day06.AddTurnIndex | src/day06.rs:256-268 | recording a turn keeps the row and column indexes exact |
| Day06.IndexedTurns | src/day06.rs:311-319 | a row or column has an index entry exactly when some turn lies in it |
| Day06.AddObstacleIndex | src/day06.rs:269-302 | indexing an obstacle keeps the row and column indexes exact |
| Day06.Step | src/day06.rs:23-53 | one step records the cell and direction, stops when the cell ahead is off the map, turns right and records a turn at an obstacle, and otherwise moves ahead |
| Day06.StepKeepsInvariant | src/day06.rs:23-53 | a step keeps the guard on free cells; the visited cells and turns only grow |
| Day06.WalkKeepsInvariant | src/day06.rs:23-53 | a finished walk keeps the guard on free cells; the visited cells and turns only grow |
| Day06.WalkFromStart | src/day06.rs:23-53 | a walk from a free start visits it, records a direction for every visited cell, turns only on visited cells, and never visits an obstacle or leaves the map |
| Day06.WalkMoreFuel | src/day06.rs:23-53 | the result of a walk that finished does not depend on the step bound |
| Day06.Map.constructor | src/day06.rs:269-302 | a new map holds the grid, obstacles and start given, visits nothing, and indexes the obstacles by row and column |
| Day06.Map.AddTurn | src/day06.rs:256-268 | the turn is added to the set and to both indexes, everything else is unchanged and the indexes stay exact |
| Day06.Map.IsOutOfBounds | src/day06.rs:303-305 | a position is out of bounds exactly when it lies outside the grid |
| Day06.Map.IsBlocked | src/day06.rs:306-310 | a position is blocked exactly when it holds an obstacle, as the row and column indexes agree |
| Day06.Map.TurnInSameRowAndCol | src/day06.rs:311-319 | the answer is whether both the row and the column have recorded turns |
| Day06.Map.TurnsInSameRow | src/day06.rs:321-327 | the result is the recorded turns in the position's row |
| Day06.Map.TurnsInSameCol | src/day06.rs:329-335 | the result is the recorded turns in the position's column |
| Day06.MoveGuard | src/day06.rs:23-53 | the loop performs the specified walk: it keeps the map's indexes, records the walk's visited cells, directions and turns, and returns the visited count |
| Day06.GuardStep | src/day06.rs:28-49 | one pass of the patrol loop changes the guard and the map exactly as the specified step does, keeps the indexes exact and reports when the guard leaves |
| Day06.Column | src/day06.rs:103-129 | one column of candidate corners pairs the x with each y in order |
| Day06.CandidatesAre | src/day06.rs:103-129 | the candidates are exactly the combinations of the three turns' x and y coordinates |
| Day06.FirstNotIn | src/day06.rs:103-129 | the result is a candidate not among the turns, or there is none |
| Day06.FirstNotInAt | src/day06.rs:103-129 | the first free candidate is the one found |
| Day06.CandidateAt | src/day06.rs:103-129 | the nested loops visit the candidates in x-major order |
| Day06.FindFourthTurn | src/day06.rs:103-129 | the nested loops return the first rectangle corner not among the three turns |
| Day06.FourthTurnFacts | src/day06.rs:103-129 | a fourth turn differs from the three and combines their coordinates; none exists exactly when every combination is one of the three |
| Day06.FourthTurnCompletesRectangle | src/day06.rs:103-129 | for a row pair and a column pair through the first turn, the fourth turn is the opposite corner |
| Day06.ObstaclePosition | src/day06.rs:131-160 | a position is proposed exactly when the corner was visited |
| Day06.ObstacleBesideOrBehind | src/day06.rs:131-160 | the proposed obstacle lies ahead of a horizontal heading and behind a vertical one |
| Day06.RowAndColFromSets | src/day06.rs:311-335 | a position has turns in both its row and column exactly when both sets of turns are non-empty |
| Day06.Intersections | src/day06.rs:55-78 | the triples collected are exactly three distinct turns, the second in the first's row and the third in its column |
| Day06.ThirdTurns | src/day06.rs:68-76 | the inner loop adds a triple for every third turn in the column that differs from the first two |
| Day06.TriplesFrom | src/day06.rs:60-77 | the middle loop adds a triple for every distinct pair from the row and the column |
| Day06.PossibleIntersections | src/day06.rs:55-78 | the collected triples are exactly the intersections of the recorded turns |
| Day06.CountsAtCorner | src/day06.rs:82-97 | a triple counts exactly when its corner was visited and the proposed obstacle is on the map and not the start |
| Day06.Counted | src/day06.rs:82-97 | the counted triples are among those collected |
| Day06.IsValidObstacle | src/day06.rs:55-101 | the total is the number of collected triples that count; the verdict is always true |
| Day06.CountedStep | src/day06.rs:82-97 | each triple adds one to the total exactly when it counts |
| Day06.HasTIntersection | src/day06.rs:162-174 | the answer is whether the row and column turn sets meet |
| Day06.GlyphDirection | src/day06.rs:194-214 | the corrected table recognises exactly the four guard glyphs, as the inverse of the glyphs that `print_state` draws |
| Day06.GlyphDirectionAsWritten | src/day06.rs:191-214 | the table as written recognises exactly the four guard glyphs and reads `^` as Up, `v` as Down, `>` as Left and `<` as Right |
| Day06.GlyphRoundTrip | src/day06.rs:350-355 | reading a drawn guard glyph gives back its direction |
| Day06.GlyphSwappedAsWritten | src/day06.rs:199-210 | as written, `>` reads as Left and `<` as Right, so a guard drawn `>` walks west |
| Day06.ReadRow | src/day06.rs:187-221 | for any guard table, the loop over a line does what the line scan with that table does, panic included |
| Day06.ReadGrid | src/day06.rs:184-224 | for any guard table, the loop over the lines does what the grid scan with that table does, panic included |
| Day06.ScanLinePanicStays | src/day06.rs:212-214 | for any table, an unknown character makes the rest of the line scan panic with the same message |
| Day06.ScanPanicStays | src/day06.rs:212-214 | for any table, an unknown character makes the rest of the grid scan panic with the same message |
| Day06.ScanLineFacts | src/day06.rs:187-221 | for any guard table, a line scans exactly when all its characters are known; every `#` becomes an obstacle and the last guard glyph sets the guard, facing as the table reads that glyph |
| Day06.ScanLinesFacts | src/day06.rs:184-224 | for any guard table, a grid scans exactly when all its characters are known; the width is the last line's length, the obstacles are the `#` cells and the guard is the last one drawn, facing as the table reads its glyph |
| Day06.ReadInput | src/day06.rs:176-238 | for any guard table (the source's is `GlyphDirectionAsWritten`), reading panics exactly when the scan does, and otherwise yields a fresh map and guard set up from the scan |
| Day06.Part1 | src/day06.rs:10-15 | for any guard table, part 1 is the number of cells the walk from the scanned guard visits, or a panic where the reader panics |
| Day06.GoldenWalk | src/day06.rs:23-53 | on a 3x3 board with one obstacle the guard turns once and visits three cells |
| Day06.GoldenScan | src/day06.rs:176-238 | with either table, a small grid with a `^` guard scans to its width, obstacle and guard |
| Day06.GuardTables | src/day06.rs:191-214 | both the table as written and the corrected one recognise exactly the four guard glyphs |
| Day06.SwappedGuardScan | src/day06.rs:184-224 | the grid `>..` scans to width 3, no obstacles and a guard at (0, 0) facing as the table reads `>` |
| Day06.SwappedGuardWalk | src/day06.rs:23-53 | on a free 3 by 1 board, a guard at (0, 0) facing left visits one cell and one facing right visits all three |
| Day06.SwappedGuardPart1 | src/day06.rs:199-210 | as written, `>..` is read with the guard facing left and part 1 counts 1 cell; with the corrected table it faces right and part 1 counts 3 |

## Left out

- File reading and printing in the `main` functions (what `main` computes is Day05.Answers and Day06.Part1), `print_part_solution`, day 3's `tokens.tmp` dump and day 6's `print_state` display are I/O. They are not modelled. Their inputs become parameters: lines, text or grids.
- Day03.TextSum: covers `calculate_input` from the tokens onwards. It does not model the debug print of `read_tokens[29..35]`, which panics on fewer than 35 tokens.
- Day03.Nice.Parse: does not model the debug tripwire that panics with "I am evil" when the operation in progress holds the numbers 8 and 5. It is a leftover debugging aid, not part of the puzzle logic.
- `current_op_type` and `current_op_valid` on day 3's parser are never called, so they are not modelled.
- `src/main.rs` and the other days are not part of this model.
- Rust's `i32`, `u32` and `usize` widths are not modelled in arithmetic. Sums, products, `as usize` casts and `try_into().unwrap()` are unbounded integers here. Parsing does check the range: `Strings.ParseI32` rejects values outside `i32` for days 1 and 2, and `Day05.ParseU32` rejects values from 2^32 on.
- Day01.CalculateSimilarityScore: computes over unbounded integers. It does not model the `usize` casts and their overflow.
- Day03.OperationsSum: does not model `i32` overflow of the sum.
- Iteration over a `HashMap` or `HashSet` has no fixed order in Rust. Sets and maps are modelled as values, so only order-independent results are stated.
- Day06.MoveGuard: terminates by a step bound (`fuel`), so a patrol that loops forever has no answer here. The source's loop cannot stop in that case.
- Day06.Walk: uses the same step bound. `WalkMoreFuel` shows that a finished walk does not depend on the bound.
- Day06's `Obstacle` wrapper is modelled as a plain set of positions.
- `sort_unstable` is modelled as a functional insertion sort. `SortedUnique` shows that every sort returns the same list.
- Day05.Reorder rebuilds an update in one pass, as `parse_with_rules` does, and pages placed earlier are not moved again. Its result is therefore not proved to obey every rule. Day05.ReorderCanBreakRule shows an update whose result still breaks one.
- Day05.Page.AddDependantPage: the page is a value that the read loop replaces in the map, not an entry mutated in place.
- Day 4's `Input::from_file` and `add_line` are I/O. The grid is a parameter.
- Day04.LoopThroughInput: the action's `Result` is always `Ok` in the source, so the action returns a plain integer.
- Day06.IsValidObstacle: the unused `position` parameter is kept but plays no part in the result.
- `read_lines` stops at the first read error (`map_while(Result::ok)`). That is I/O and not modelled.

## Findings

| source | as written | input that shows it | evidently intended | confidence | as-written member | corrected member |
|---|---|---|---|---|---|---|
| src/day06.rs:199-210 | `read_input` maps the glyph `>` to `Direction::Left` and `<` to `Direction::Right` | the one-line grid `>..`: the guard is read facing Left and leaves at once, so part 1 counts 1 cell instead of 3, although `print_state` draws a Right-facing guard as `>` | `>` faces Right and `<` faces Left, the inverse of the glyphs at src/day06.rs:350-355 | not executed | Day06.SwappedGuardPart1 | Day06.GlyphRoundTrip |
