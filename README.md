# Advent of Code 2022, days 1 to 8, in Dafny

This project models the eight puzzle solvers `src/bin/day1.rs` … `src/bin/day8.rs`
and proves properties of them. Each solver parses a text input into a value and
computes one or two answers:

| file | module | puzzle |
|---|---|---|
| `text.dfy` | `Text` | the Rust `str`, `u64` and `itertools` behaviour the solvers rely on: `split`, `split_once`, `lines`, `trim`, `u64` parsing, `unique`, all-or-nothing `collect` |
| `day1.dfy` | `Calories` | blank-line separated groups of calorie counts; the largest total, and the sum of the three largest |
| `day2.dfy` | `RockPaperScissors` | rock-paper-scissors rounds scored from a strategy guide, read two ways |
| `day3.dfy` | `Rucksack` | the one item type shared by the two halves of a rucksack, and by each group of three rucksacks; item priorities |
| `day4.dfy` | `CampCleanup` | pairs of inclusive section ranges; containment and overlap counts |
| `day5.dfy` | `SupplyStacks` | a drawing of crate stacks and a list of moves; the top crates after a crane that lifts one crate at a time, or whole blocks |
| `day6.dfy` | `TuningTrouble` | the end of the first window of 4, or 14, pairwise different characters |
| `day7.dfy` | `NoSpace` | a `cd`/`ls` transcript replayed into a directory tree; directory sizes; the small directories, and the smallest one worth deleting |
| `day8.dfy` | `TreeHouse` | a grid of tree heights; the trees visible from outside, and the best scenic score |

Modelling conventions:

- Every panic, `expect`, `unwrap` and `eyre` error becomes `None` of the `Option` the operation returns.
- Numbers are unbounded `nat`/`int`. Where the source checks a `u64` bound, the bound `U64_MAX` is written out: parsing, and the checked additions of day 1.
- Text is a `seq<char>` of ASCII characters.
- Code that works by loops and mutation is modelled as methods:
  - day 1 `parse` and `part2`, day 2 `parse` and `part2`, day 5 throughout, day 6, and day 7 `parse` and `calculate_dir_sizes`;
  - day 8 `part1` and `part2`.
- Each such method is proved against a function or predicate that states what it computes.
- Pure iterator pipelines are modelled as functions.
- Day 7's `FileSystem`, whose `path_sizes` table `calculate_dir_sizes` fills in place, is a class.

## Model

| member | source | states |
|---|---|---|
| Text.SplitJoin | src/bin/day7.rs:70 | `str::split` loses nothing: joining the pieces with the separator gives the input back |
| Text.JoinSplitSep | src/bin/day1.rs:43 | splitting text that was joined with a separator, none of whose pieces contains the separator, gives the pieces back |
| Text.JoinSplit | src/bin/day5.rs:115-116 | splitting at a one-character separator undoes joining with it |
| Text.SplitOnce | src/bin/day4.rs:36 | `split_once` either finds the first occurrence (input = before + sep + after, no earlier occurrence) or fails exactly when there is none |
| Text.SplitOnceAfterPiece | src/bin/day5.rs:71-73 | `split_once` at the first occurrence of the separator returns the text before and after it |
| Text.Lines | src/bin/day3.rs:61-63 | `str::lines` of empty text is empty, and no line contains a newline |
| Text.LinesOfJoin | src/bin/day8.rs:89-90 | `lines` of newline-joined lines, none of them ending in `\r`, gives those lines back |
| Text.Trim | src/bin/day1.rs:47 | `trim` returns a slice of the input with only whitespace cut off either end, and no whitespace at either end of the result |
| Text.TrimDigits | src/bin/day8.rs:91 | trimming a non-empty run of digits leaves it unchanged |
| Text.ParseU64 | src/bin/day1.rs:46-48 | `u64` parsing succeeds only on an optional `+` followed by digits, and only for values up to 2^64 - 1 |
| Text.ParseDecimal | src/bin/day7.rs:111 | parsing the decimal text of any `u64` value gives that value back |
| Text.Split | src/bin/day1.rs:43 | `str::split` always yields at least one piece |
| Text.ReverseIndex | src/bin/day5.rs:97 | reversing puts element `i` at position `len - 1 - i` |
| Text.AllOrNone | src/bin/day8.rs:93-105 | collecting fallible results succeeds exactly when every element succeeds, and then has each element's result at its index |
| Text.DedupKeepsAllIffDistinct | src/bin/day6.rs:13 | `unique().count()` equals the length exactly when the characters are pairwise different |
| Calories.Parse | src/bin/day1.rs:41-64 | the nested loop of `parse` computes `Parsed`: split at blank lines, parse each group, drop empty groups, fail when any group fails |
| Calories.ParseGroupItems | src/bin/day1.rs:44-58 | the inner loop over a group's lines computes `ParseGroup`, including the failure on a bad line or an overflowing running total |
| Calories.GroupOverflows | src/bin/day1.rs:51-57 | once the items read so far sum past `u64::MAX`, the group fails: a checked addition overflows at some line |
| Calories.ParsedElves | src/bin/day1.rs:50-61 | every parsed elf carries at least one item, and its total is the sum of its items within 64 bits |
| Calories.KeptElves | src/bin/day1.rs:59-61 | the kept elves are exactly the groups with items, each with total equal to the sum of its items |
| Calories.NonEmpty | src/bin/day1.rs:59-61 | dropping empty groups keeps every group with items and only such groups |
| Calories.AllKept | src/bin/day1.rs:59-61 | when no group is empty nothing is dropped |
| Calories.ParseElvesText | src/bin/day1.rs:41-64 | printing well-formed elves as blank-line separated groups and parsing the text back gives the same elves |
| Calories.SampleParse | src/bin/day1.rs:71-77 | `"1\n1\n3\n\n3\n\n4"` parses to three elves with items [1,1,3], [3] and [4] |
| Calories.Part1 | src/bin/day1.rs:15-21 | `part1` fails exactly when there are no elves; otherwise it returns a total some elf has and no elf exceeds |
| Calories.SortSorts | src/bin/day1.rs:25 | sorting the totals yields an ascending permutation of them |
| Calories.TopThreeAreLargest | src/bin/day1.rs:25-31 | the three popped totals are in descending order, are among the totals, and every other total is at most the third |
| Calories.TopIsPart1 | src/bin/day1.rs:15-31 | the first total `part2` pops is `part1`'s answer |
| Calories.Part2 | src/bin/day1.rs:23-33 | sorting a copy and popping three totals with checked additions computes `Part2Of`: fail with fewer than three elves or on overflow |
| Calories.SamplePart1 | src/bin/day1.rs:79-92 | the five sample elves give 24000 |
| Calories.SamplePart2 | src/bin/day1.rs:94-107 | the five sample elves give 45000 |
| RockPaperScissors.ParseLine | src/bin/day2.rs:59-60 | a line parses exactly when it is three bytes long; A/B/C and X/Y/Z become shapes 0..2 |
| RockPaperScissors.ParseLineText | src/bin/day2.rs:59-60 | the line `<A+e> <X+y>` parses to `(e, y)` |
| RockPaperScissors.Parse | src/bin/day2.rs:56-63 | the loop of `parse` computes the all-or-nothing parse of every line, failing at the first bad line |
| RockPaperScissors.OutcomeMatchesRules | src/bin/day2.rs:20-33 | for valid shapes the outcome term is 3 on a tie, 6 when your shape beats the elf's and 0 otherwise, so a round scores 1..9 |
| RockPaperScissors.Part1 | src/bin/day2.rs:17-36 | `part1` sums, per round, your shape's value plus 1 plus the outcome; it fails (the source panics) exactly when some round has no score, that is, its columns differ and the elf's is not a shape |
| RockPaperScissors.Part1Bounds | src/bin/day2.rs:17-36 | over valid rounds `part1` succeeds and lies between one and nine points per round |
| RockPaperScissors.ChooseReachesExpected | src/bin/day2.rs:41-50 | the table fails exactly outside its rows; the chosen shape loses to, ties with or beats the elf's shape as `expected` asks |
| RockPaperScissors.Score2IsScore1OfChosen | src/bin/day2.rs:51 | `you + 1 + 3 * expected` is the part 1 score of playing the chosen shape |
| RockPaperScissors.Part2IsPart1OfPlayed | src/bin/day2.rs:38-54 | part 2 equals part 1 applied to the rounds actually played |
| RockPaperScissors.Part2 | src/bin/day2.rs:38-54 | the loop of `part2` adds each round's score and fails at the first round outside the table |
| RockPaperScissors.TotalFailsAt | src/bin/day2.rs:49 | one round outside the table fails the whole sum |
| RockPaperScissors.SampleParse | src/bin/day2.rs:70-73 | `"A X\nB Y\nC Z"` parses to (0,0), (1,1), (2,2) |
| RockPaperScissors.SampleAnswers | src/bin/day2.rs:75-83 | the sample scores 15 in part 1 and 12 in part 2 |
| Rucksack.PrioIsBijection | src/bin/day3.rs:53-59 | `prio` maps 'a'..'z' onto 1..26 and 'A'..'Z' onto 27..52, and the letter is recovered from its priority |
| Rucksack.ItemOfPrio | src/bin/day3.rs:53-59 | every priority 1..52 is the priority of exactly the letter `ItemOf` gives |
| Rucksack.FilterSpec | src/bin/day3.rs:16-17 | filtering keeps exactly the characters found in both strings |
| Rucksack.SoleItemSpec | src/bin/day3.rs:18-19 | `unique().collect_tuple::<(char,)>()` succeeds exactly when every remaining character is the same one |
| Rucksack.SharedSpec | src/bin/day3.rs:14-21 | the halves' shared item is found exactly when one item type, and only one, is in both |
| Rucksack.Shared3Spec | src/bin/day3.rs:39-47 | a group's badge is found exactly when one item type, and only one, is in all three rucksacks |
| Rucksack.Part1 | src/bin/day3.rs:11-26 | `part1` succeeds exactly when every rucksack's halves share exactly one item type |
| Rucksack.Part1Sum | src/bin/day3.rs:11-26 | with the shared items known, `part1` is the sum of their priorities |
| Rucksack.Part2 | src/bin/day3.rs:28-51 | `part2` succeeds exactly when the rucksacks split into whole groups of three that each share exactly one item type |
| Rucksack.Part2FromSucceeds | src/bin/day3.rs:30-38 | from any group boundary, the rest succeeds exactly when it splits into whole groups that each share one item type |
| Rucksack.AllGroupsSplit | src/bin/day3.rs:30-31 | "all groups from `i` share one item" is the first group sharing one plus all groups from `i + 3` sharing one |
| Rucksack.Part2Sum | src/bin/day3.rs:28-51 | with the badges known, `part2` is the sum of their priorities |
| Rucksack.Parse | src/bin/day3.rs:61-73 | `parse` returns the input's lines when every line has even length and fails (the source panics) when some line has odd length |
| Rucksack.ParseJoin | src/bin/day3.rs:61-73 | rucksack lines (no line break inside, the last one non-empty) joined by newlines parse back: `parse` succeeds exactly when every line has even length, and then returns exactly those lines |
| Rucksack.SampleParse | src/bin/day3.rs:80-100 | the six-line example parses to its six rucksack strings |
| Rucksack.SamplePart1 | src/bin/day3.rs:102-115 | the sample rucksacks give 157 |
| Rucksack.SamplePart2 | src/bin/day3.rs:117-130 | the sample groups give 70 |
| CampCleanup.ParseRange | src/bin/day4.rs:38-44 | `parse_range` succeeds exactly when the text has a dash, both sides are `u64` values and `from <= to`, and then gives `from..=to`; text without a dash fails |
| CampCleanup.ParseRangeReversed | src/bin/day4.rs:42 | a range written `a-b` with `b < a` is rejected |
| CampCleanup.ParseRangeText | src/bin/day4.rs:38-44 | the text `a-b` of a well-formed range parses back to it |
| CampCleanup.ParseLineText | src/bin/day4.rs:36-46 | the text `a-b,c-d` of two well-formed ranges parses back to the pair |
| CampCleanup.ParseLine | src/bin/day4.rs:36-46 | a line parses exactly when it has a comma and both sides are ranges that parse; a line without a comma fails |
| CampCleanup.Parse | src/bin/day4.rs:33-49 | `parse` succeeds exactly when every line parses, and then gives one pair of well-formed ranges per line |
| CampCleanup.FullyContainsMeansSubset | src/bin/day4.rs:14-17 | the `part1` predicate holds exactly when one range's sections are all inside the other's, and it is symmetric |
| CampCleanup.OverlapsMeansSharedSection | src/bin/day4.rs:24-29 | the four-way disjunction of `part2` holds exactly when some section lies in both ranges, and it is symmetric |
| CampCleanup.ContainsImpliesOverlaps | src/bin/day4.rs:11-31 | a pair counted by `part1` is counted by `part2` |
| CampCleanup.Part1AtMostPart2 | src/bin/day4.rs:11-31 | `part1 <= part2` on every input of well-formed ranges |
| CampCleanup.Part1 | src/bin/day4.rs:11-19 | `part1` counts at most every pair |
| CampCleanup.Part2 | src/bin/day4.rs:21-31 | `part2` counts at most every pair |
| CampCleanup.SampleAnswers | src/bin/day4.rs:78-106 | the sample pairs give 2 and 4 |
| CampCleanup.SampleLine | src/bin/day4.rs:57-75 | the first sample line `2-4,6-8` parses to (2..=4, 6..=8) |
| SupplyStacks.OneByOneReverses | src/bin/day5.rs:26-34 | `count` single moves between distinct stacks take the top `count` crates off `from` and leave them on `to` reversed; every other stack is untouched |
| SupplyStacks.OneByOneOntoItself | src/bin/day5.rs:26-34 | moving crates one at a time from a non-empty stack onto itself changes nothing |
| SupplyStacks.OneByOneFailsLater | src/bin/day5.rs:28-31 | once a single move fails, more moves still fail |
| SupplyStacks.CrateMover9000Fails | src/bin/day5.rs:26-34 | between distinct stacks, a part 1 move fails exactly when it moves something and a stack number is out of range or the source runs out |
| SupplyStacks.BlockKeepsOrder | src/bin/day5.rs:46-60 | a part 2 move lands the block on `to` in its original order where part 1 lands it reversed; all other stacks agree |
| SupplyStacks.CratesUpdate | src/bin/day5.rs:28-33 | replacing one stack changes the total crate count by the difference in its height |
| SupplyStacks.CranesKeepCrates | src/bin/day5.rs:26-60 | a successful move of either crane keeps the total number of crates |
| SupplyStacks.RunKeepsCrates | src/bin/day5.rs:26-60 | a successful run of all moves keeps the total number of crates |
| SupplyStacks.RunFailsLater | src/bin/day5.rs:26-35 | a failing move fails the whole run |
| SupplyStacks.Tops | src/bin/day5.rs:37-42 | the answer has at most one crate per stack |
| SupplyStacks.Lift9000 | src/bin/day5.rs:27-34 | the inner loop of `part1` pops and pushes `count` times, computing the single-crate crane |
| SupplyStacks.Part1 | src/bin/day5.rs:25-43 | `part1` runs every move with the single-crate crane and reads the tops |
| SupplyStacks.Lift9001 | src/bin/day5.rs:47-59 | one `part2` move: a single pop and push when `count == 1`, else `split_off` and `append` |
| SupplyStacks.Part2 | src/bin/day5.rs:45-68 | `part2` runs every move with the block crane and reads the tops |
| SupplyStacks.MaxDigit | src/bin/day5.rs:82-91 | `columns` is the largest digit on the number line; there is none exactly when the line has no digit |
| SupplyStacks.Drawing | src/bin/day5.rs:92-105 | filling the stacks succeeds exactly when every crate line reaches every column, gives `columns` stacks and keeps only letters |
| SupplyStacks.FillStacks | src/bin/day5.rs:92-105 | the nested loops that fill the stacks bottom-up compute `Drawing` |
| SupplyStacks.ParsedStacks | src/bin/day5.rs:82-105 | a parsed drawing has at most nine stacks, holding only letters |
| SupplyStacks.ParseMoves | src/bin/day5.rs:113-128 | the loop over instruction lines computes the all-or-nothing parse of every line |
| SupplyStacks.Parse | src/bin/day5.rs:70-134 | `parse` computes `Parsed`: split at the blank line, read the drawing, then the moves |
| SupplyStacks.ParseMoveText | src/bin/day5.rs:115-127 | the line `move c from f to t` parses to `Move{count: c, from: f, to: t}` |
| SupplyStacks.SampleParse | src/bin/day5.rs:141-160 | the sample drawing and moves parse to stacks [ZN, MCD, P] and the four moves of the test |
| SupplyStacks.SamplePart1 | src/bin/day5.rs:162-171 | the sample gives "CMZ" in part 1 |
| SupplyStacks.SamplePart2 | src/bin/day5.rs:173-182 | the sample gives "MCD" in part 2 |
| TuningTrouble.FirstMarker | src/bin/day6.rs:10-27 | the search returns `i + k` for the first all-different window starting before `len - k`, which ends between `k` and `len - 1`, or fails when there is none |
| TuningTrouble.Part1 | src/bin/day6.rs:10-18 | `part1` returns the end of the first all-different window of 4, or fails when no window before the last qualifies |
| TuningTrouble.Part2 | src/bin/day6.rs:20-28 | `part2` returns the end of the first all-different window of 14, or fails when no window before the last qualifies |
| TuningTrouble.FirstMarkerUnique | src/bin/day6.rs:10-27 | the first marker is unique, so the answer is determined |
| TuningTrouble.MarkerShrinks | src/bin/day6.rs:13 | every part of an all-different window is all different |
| TuningTrouble.PacketNoLaterThanMessage | src/bin/day6.rs:10-27 | the start-of-packet marker ends no later than the start-of-message marker |
| TuningTrouble.SamplePacket0 | src/bin/day6.rs:37 | in `mjqjpqmgbljsphdztnvjfqwrcgsmlb` the first start-of-packet marker ends at 7, so `part1` answers 7 |
| TuningTrouble.SamplePacket1 | src/bin/day6.rs:38 | in `nppdvjthqldpwncqszvftbrmjlhg` the first start-of-packet marker ends at 6, so `part1` answers 6 |
| TuningTrouble.SamplePacket2 | src/bin/day6.rs:39 | in `nznrnfrfntjfmvfwmzdfjlvtqnbhcprsg` the first start-of-packet marker ends at 10, so `part1` answers 10 |
| TuningTrouble.SamplePacket3 | src/bin/day6.rs:40 | in `zcfzfwzzqfrljwzlrfnpqdbhtmscgvjw` the first start-of-packet marker ends at 11, so `part1` answers 11 |
| TuningTrouble.SampleMessage0 | src/bin/day6.rs:45 | in `mjqjpqmgbljsphdztnvjfqwrcgsmlb` the first start-of-message marker ends at 19, so `part2` answers 19 |
| TuningTrouble.SampleMessage1 | src/bin/day6.rs:46 | in `nppdvjthqldpwncqszvftbrmjlhg` the first start-of-message marker ends at 23, so `part2` answers 23 |
| TuningTrouble.SampleMessage2 | src/bin/day6.rs:47 | in `nznrnfrfntjfmvfwmzdfjlvtqnbhcprsg` the first start-of-message marker ends at 29, so `part2` answers 29 |
| TuningTrouble.LastWindowMissed | src/bin/day6.rs:11 | `abcd` is a marker of width 4, yet no end position meets what the search as written returns, so `part1` fails on it |
| TuningTrouble.FirstMarkerCorrected | src/bin/day6.rs:11-17 | the search over every window, the last included, returns the end of the first all-different window, and fails exactly when there is none |
| TuningTrouble.CorrectedAgrees | src/bin/day6.rs:11-17 | whenever the search as written answers, its answer ends the first marker and is the only value that does, so the corrected search returns the same answer |
| TuningTrouble.SampleMessage3 | src/bin/day6.rs:48 | in `zcfzfwzzqfrljwzlrfnpqdbhtmscgvjw` the first start-of-message marker ends at 26, so `part2` answers 26 |
| NoSpace.Record | src/bin/day7.rs:91-93 | recording a child adds the parent as a key if needed, keeps the parent's earlier children, adds the child and nothing else, and leaves every other directory's entry unchanged |
| NoSpace.RecordKeepsRooted | src/bin/day7.rs:89-94 | recording `pwd + [name]` keeps every child one segment below its parent, and every recorded directory reachable from `/` |
| NoSpace.CdKeepsRooted | src/bin/day7.rs:79-95 | `cd /`, `cd ..` (a no-op at `/`) and `cd name` keep the tree rooted at `/` |
| NoSpace.LsLineKeepsRooted | src/bin/day7.rs:97-113 | an accepted `ls` line keeps the tree rooted at `/` |
| NoSpace.ExecuteKeepsRooted | src/bin/day7.rs:70-116 | every accepted command block keeps the tree rooted at `/` |
| NoSpace.ReplayRooted | src/bin/day7.rs:65-117 | after a whole transcript every recorded child is its parent plus one segment, and every directory is reachable from `/` |
| NoSpace.LsLineOutcome | src/bin/day7.rs:97-113 | an `ls` line is accepted exactly when it has a space and its descriptor is `dir` or a `u64` |
| NoSpace.LsLinesOutcome | src/bin/day7.rs:96-113 | an `ls` output succeeds exactly when every line is accepted, and then records the listed children and file sizes |
| NoSpace.LsLineFiles | src/bin/day7.rs:107-112 | an accepted line adds to `files` exactly when its descriptor is not `dir` |
| NoSpace.ListTwice | src/bin/day7.rs:96-113 | listing the same directory twice gives the same tables as listing it once |
| NoSpace.CdRecordsLikeDir | src/bin/day7.rs:89-93 | `cd name` records the same child as the output line `dir name`, and recording it again changes nothing |
| NoSpace.ListEntry | src/bin/day7.rs:97-113 | reading back an entry's `dir name` or `size name` line records exactly that entry |
| NoSpace.ExecuteBlank | src/bin/day7.rs:71-74 | a blank command block changes nothing |
| NoSpace.ExecuteCd | src/bin/day7.rs:79-95 | a block whose first line starts with `cd ` moves the cursor and ignores the rest |
| NoSpace.ExecuteLs | src/bin/day7.rs:96-113 | a block whose first line is `ls` replays its output lines |
| NoSpace.ExecuteFails | src/bin/day7.rs:114-115 | any other command fails |
| NoSpace.List | src/bin/day7.rs:97-113 | the loop over `ls` output updates the tables as `LsLines` says, and fails at the first bad line |
| NoSpace.RunCommand | src/bin/day7.rs:71-116 | one iteration of the loop of `parse` computes `Execute` |
| NoSpace.Parse | src/bin/day7.rs:65-143 | `parse` fails exactly when the transcript does; otherwise its tables are the replayed ones, they form a tree, and `path_sizes` holds every directory reachable from `/` with its aggregated size; the size of `/` is the sum of the sizes of all files reachable from it |
| NoSpace.FileSystem.constructor | src/bin/day7.rs:119-123 | a new file system holds the given tables and no sizes |
| NoSpace.FileSystem.CalculateDirSizes | src/bin/day7.rs:125-139 | returns the size of `path` (files directly, directories recursively, 0 without a `dirs` entry) and stores that size for every directory it visits, leaving other entries alone; the size equals the sum of the sizes of the distinct files below `path`, so no file is counted twice or missed |
| NoSpace.RankFalls | src/bin/day7.rs:128-133 | a child's rank is below its parent's, so the recursion ends |
| NoSpace.EntriesSizeRemove | src/bin/day7.rs:128-135 | the size of a directory is the sum over its children, in any order |
| NoSpace.ChildNoLarger | src/bin/day7.rs:125-139 | a directory is at least as large as each of its entries, and of each of its subdirectories |
| NoSpace.ReachesNoFile | src/bin/day7.rs:130-133 | the recursion only descends into entries that are not files |
| NoSpace.DirSizeIsFileSum | src/bin/day7.rs:125-139 | in a tree of directories, the recursive size of a directory is the sum of the sizes of the distinct files reachable below it |
| NoSpace.EntriesFileSum | src/bin/day7.rs:128-135 | the sizes of a directory's entries add up to the sum of the sizes of the files they contain |
| NoSpace.GatherRemove | src/bin/day7.rs:128-135 | two different children of one directory contain no common file, so one child's files split off the rest |
| NoSpace.SmallTotalBounds | src/bin/day7.rs:14-21 | the sum of small sizes is at most 100000 per directory, and includes every small directory |
| NoSpace.Part1 | src/bin/day7.rs:14-21 | `part1` adds the stored sizes that are at most 100000 over the `dirs` keys, a missing size counted as 0; the sum is at most 100000 per `dirs` key, and at least the size of each small directory |
| NoSpace.SmallestAtLeast | src/bin/day7.rs:39-53 | the minimum over sizes at least the bound: absent exactly when no size reaches it, else attained and below every size that does |
| NoSpace.Part2 | src/bin/day7.rs:23-54 | `part2` fails on a missing `/` size, on either underflowing subtraction or when no directory qualifies; otherwise it returns a `dirs` key's size that is at least `to_free` and no larger than any other such size |
| NoSpace.FixtureTotals | src/bin/day7.rs:151-188 | aggregating the fixture's tables gives `/` = 48381165 and exactly the fixture's directory sizes |
| NoSpace.FixturePart1 | src/bin/day7.rs:190-193 | the fixture gives 95437 |
| NoSpace.FixturePart2 | src/bin/day7.rs:195-198 | the fixture gives 24933642 |
| TreeHouse.CellOf | src/bin/day8.rs:95-101 | a character is a cell exactly when it is a digit, and then its height is 0..9 |
| TreeHouse.NonBlank | src/bin/day8.rs:91-92 | the kept lines are all non-blank |
| TreeHouse.Parse | src/bin/day8.rs:88-106 | `parse` trims every line and drops the blank ones; it fails (the source panics) exactly when a kept line holds a non-digit, and otherwise gives one non-empty row of heights 0..9 per kept line |
| TreeHouse.ParseGridText | src/bin/day8.rs:88-106 | printing a grid of digits and parsing it back gives the same grid |
| TreeHouse.SampleParse | src/bin/day8.rs:123-135 | the sample text parses to the sample grid |
| TreeHouse.Column | src/bin/day8.rs:29 | the column holds, for every row, that row's tree at the given index |
| TreeHouse.EdgeVisible | src/bin/day8.rs:14 | every edge tree is visible |
| TreeHouse.ScanRow | src/bin/day8.rs:23-42 | the inner loop of `part1` adds the visible interior trees of one row |
| TreeHouse.Part1 | src/bin/day8.rs:12-45 | `part1` returns the edge formula `2 * row_len + 2 * (rows - 2)` plus the visible interior trees |
| TreeHouse.Part1CountsVisible | src/bin/day8.rs:12-45 | on a grid of at least two rows and two columns, `part1` is the number of trees visible from outside |
| TreeHouse.OneRowOvercounts | src/bin/day8.rs:13-14 | on the one-row grid [[1,2,3]] `part1` answers 4, but 3 trees are visible |
| TreeHouse.Part1CorrectedCountsVisible | src/bin/day8.rs:13-14 | counting each edge tree once gives the number of visible trees on every rectangular grid with at least one row and one column |
| TreeHouse.SamplePart1 | src/bin/day8.rs:137-140 | the sample grid gives 21 |
| TreeHouse.ViewingDistance | src/bin/day8.rs:68-78 | the distance counts trees up to and including the first one at least as tall; it is bounded by the trees in that direction and is at least 1 when there is one |
| TreeHouse.CountView | src/bin/day8.rs:69-77 | the counting loop with its early `break` computes the viewing distance |
| TreeHouse.VisibleAnyOrder | src/bin/day8.rs:54-64 | reversing the left and upward lines does not change visibility |
| TreeHouse.TallerReverse | src/bin/day8.rs:54-58 | "taller than every tree" does not depend on the order of the trees |
| TreeHouse.EdgeScoresZero | src/bin/day8.rs:66-79 | an edge tree scores 0: one direction is empty and the product vanishes |
| TreeHouse.ProductZero | src/bin/day8.rs:79 | a zero factor makes the product zero |
| TreeHouse.TreeScore | src/bin/day8.rs:52-79 | the body of `part2`'s inner loop decides visibility and, for a visible tree, computes the product of the four distances |
| TreeHouse.Part2 | src/bin/day8.rs:47-86 | `part2` returns the best score among visible trees, 0 when there is none |
| TreeHouse.BestScoreIs | src/bin/day8.rs:47-86 | the answer is any bound that a visible tree attains and no visible tree exceeds |
| TreeHouse.SampleScore32 | src/bin/day8.rs:142-145 | the tree at row 3, column 2 of the sample scores 8 |
| TreeHouse.SamplePart2 | src/bin/day8.rs:142-145 | the sample grid gives 8 |

## Left out

- `main`, `include_str!` input loading and `println!` output in every file: I/O.
- `eyre`/`color_eyre` error messages: every failure is `None`, without its message.
- The internals of `itertools`, `HashMap`, `HashSet` and `VecDeque`. Their observable behaviour is modelled with `seq`, `set` and `map`.
- The iteration order of day 7's `HashMap`/`HashSet`: the sums and minimum do not depend on it. `SmallTotal` and `SmallestAtLeast` are set folds.
- Unicode: `is_lowercase`, `is_alphabetic`, `is_digit`, `char_indices` and byte-versus-char slicing are modelled on ASCII text only.
- OS-specific `PathBuf` behaviour, such as separators and normalisation. A path is its sequence of segments below `/`, and `cd name` appends `name` as one segment, even when `name` itself contains `/`.
- Calories.Sort: a plain insertion sort stands for `sort_by`. Only its result is modelled (ascending, a permutation), not the standard library's algorithm.
- RockPaperScissors.Part2 and RockPaperScissors.Part1Bounds: `i64` overflow of the sums is not modelled; realistic inputs are far below the limit.
- Rucksack.Part1 and Rucksack.Part2: `i64` overflow of the sums is not modelled.
- NoSpace.FileSystem.CalculateDirSizes and NoSpace.Part1: `u64` overflow of the size sums is not modelled; sizes are unbounded.
- SupplyStacks.Part1 and SupplyStacks.Part2: the deques are updated as values (`seq`), not in place. Aliasing between stacks does not arise in the source either.
- SupplyStacks.SampleParse: the sample is stated as the drawing rows and move lines joined by newlines with a blank line between them. It is not stated as the single string literal of the test.
- CampCleanup.SampleLine: of the six-line parse test, only the first line is proved to parse as expected.
- TreeHouse.Part1: requires a rectangular grid with at least one row, and with rows plus columns at least 2. The source indexes `input[0]` and computes `input.len() - 2` in `usize`, which underflows below that. The source answers some ragged grids (rows of lengths 3, 4, 3 give 8 plus the number of visible trees among the middle row's columns 1 and 2, the only cells examined, none of whose columns reaches the extra cell) and panics on others (a longer middle row, as in rows of lengths 2, 4, 2, makes it read a column index the outer rows lack); the model excludes every ragged grid.
- TreeHouse.Part2: requires a rectangular grid. A ragged grid can panic in the source when it builds a column.
- TreeHouse.Part2 and TreeHouse.TreeScore: `usize` overflow of the product of the four viewing distances (`product()`) is not modelled; the product is unbounded; realistic grids are far below the limit.
- TuningTrouble.Part1 and TuningTrouble.Part2: `input.len() - 4` (or `- 14`) underflows for short inputs. The model returns `None` there, which matches the panic in a debug build; the release-build panic comes later but is still a panic.

## Findings

| source | as written | input that shows it | evidently intended | confidence | as-written member | corrected member |
|---|---|---|---|---|---|---|
| src/bin/day6.rs:11 | `part1` tries window starts `0..len - 4`, an exclusive range, so the last window, starting at `len - 4`, is never tried; `part2` does the same with 14 | `abcd`: the whole input is a start-of-packet marker, but `part1` panics | try every window start up to `len - 4` inclusive | high, not executed | TuningTrouble.LastWindowMissed | TuningTrouble.FirstMarkerCorrected |
| src/bin/day8.rs:13-14 | `part1` starts from `row_len + row_len + len - 2 + len - 2` edge trees, which with a single row counts that row as both the top and the bottom edge, and with a single column counts it as both sides | the grid `[[1, 2, 3]]`: `part1` answers 4, but only 3 trees exist, all visible | count each edge tree once, so the answer is the number of visible trees | high, not executed | TreeHouse.OneRowOvercounts | TreeHouse.Part1CorrectedCountsVisible |
