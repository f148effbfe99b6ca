# Advent of Code 2023, days 1–14 and 20, in Dafny

A Dafny model of the puzzle solutions in davidlang42/advent2023, with proofs about it. Each day is one module: `Day1` … `Day14` and `Day20`. Day 9 is not part of the model. Two shared modules support them: `Strings` holds `find`, `split`, `join`, whitespace-separated words and decimal numbers, and `Wrappers` holds `Option` and `Result`.

The main part is day 20's pulse-propagation network:
- Modules are parsed from lines like `%a -> b, c`.
- `reset` gives every Conjunction a memory of its inputs.
- `press_button` drains a FIFO queue of `(from, pulse, to)` events. It counts each event as low or high and lets the receiving module react:
  - a Broadcaster relays the pulse;
  - a FlipFlop toggles on a low pulse;
  - a Conjunction remembers the pulse and sends the NAND of its memory.

`ModuleSet` is a class whose methods change its map and counters in place. Each method is proved against `Step`/`Run`, a function on values that describes one dequeued event and `n` of them.

The other days are smaller kernels:
- hot springs (12);
- tilting rocks (14);
- almanac range maps (5);
- camel cards (7);
- pipe loops (10);
- expanding galaxies (11);
- engine part numbers (3);
- mirrors (13);
- the desert network walk (8);
- scratchcards (4, 2);
- boat races (6);
- calibration digits (1).

Where the source changes state in a loop, the model is a method with the same loop, specified by a function on its inputs. Parsers take the input already split into lines, and numbers already read, except where the parsing is the point.

## Model

| member | source | states |
|---|---|---|
| Day20.ParseModule | day20/src/main.rs:26-49 | an error carrying the section count unless the line has exactly two ` -> ` sections; the first character `b`, `%` or `&` selects Broadcaster, FlipFlop or Conjunction; only non-broadcaster names lose that character; destinations are the `, `-separated list in written order; the module starts fresh (flip-flop off, empty memory) |
| Day20.ParseFormat | day20/src/main.rs:26-49 | writing a fresh module with plain names and at least one destination as a line and parsing it gives the module back; only a broadcaster needs its name to start with `b`, since a `%` or `&` prefix is read first |
| Day20.PlainJoin | day20/src/main.rs:26-49 | destination lists written with `, ` contain no `-`, so the ` -> ` split sees two sections |
| Day20.Process | day20/src/main.rs:77-93 | name, type and destinations never change; a Broadcaster relays the pulse; a FlipFlop ignores a high pulse and, on a low one, toggles and sends its new state; a Conjunction stores `pulse` under `from` (adding the key), keeps every other key, and sends low exactly when every remembered input is high |
| Day20.FlipFlopTwoLows | day20/src/main.rs:79-87 | two low pulses return a flip-flop to its state, sending first the toggled value and then the original |
| Day20.ConjunctionCommutes | day20/src/main.rs:88-91 | pulses from two different inputs leave a conjunction in the same state in either order |
| Day20.ConjunctionLatestWins | day20/src/main.rs:88-91 | of two pulses from the same input, only the later one is remembered |
| Day20.Collect | day20/src/main.rs:62-73 | the map built by inserting parsed modules keys every module by its own name |
| Day20.CollectLastWins | day20/src/main.rs:63-67 | the module stored under a name is the last line with that name |
| Day20.CollectKeys | day20/src/main.rs:63-67 | the map's keys are exactly the names of the parsed modules |
| Day20.ModuleSet.FromLines | day20/src/main.rs:62-73 | the set holds the modules of the lines, by name, and both counters are zero |
| Day20.Seeded | day20/src/main.rs:116-136 | seeding keeps the set of module names |
| Day20.SeededSpec | day20/src/main.rs:116-136 | seeding leaves every non-conjunction untouched, and leaves each conjunction's name, type, destinations and flip-flop bit alone; it adds a `false` entry for exactly its inputs and keeps the entries for non-inputs; a fresh conjunction's memory becomes exactly `false` for each input |
| Day20.SeededIdempotent | day20/src/main.rs:116-136 | seeding twice gives the same modules as seeding once |
| Day20.ModuleSet.ConjunctionInputs | day20/src/main.rs:117-128 | the gathered map has a key for each conjunction, listing exactly the modules whose destinations name it |
| Day20.ModuleSet.RememberLow | day20/src/main.rs:129-133 | the named module's memory gains a `false` entry for each listed input, and nothing else changes |
| Day20.SeededByParts | day20/src/main.rs:129-133 | updating each module by its own seeding gives the seeded map |
| Day20.SeededKeyedByName | day20/src/main.rs:116-136 | seeding keeps every module stored under its own name |
| Day20.ModuleSet.Reset | day20/src/main.rs:116-136 | the modules become the seeded modules and both counters are zero |
| Day20.Emit | day20/src/main.rs:108-110 | one event per destination, in list order, each from the module and carrying its pulse |
| Day20.ModuleSet.PushAll | day20/src/main.rs:108-110 | the queue grows by exactly those events, at its back |
| Day20.StepCounts | day20/src/main.rs:100-105 | each dequeued event adds one to exactly the counter of its polarity |
| Day20.StepToSink | day20/src/main.rs:106-112 | an event to a name not in the set changes nothing but the queue's front and a counter |
| Day20.StepToModule | day20/src/main.rs:106-112 | an event to a module changes only that module, to its processed state; the rest of the queue stays in front, followed by one event per destination, in order, when the module sends |
| Day20.HighIntoFlipFlopIsSilent | day20/src/main.rs:101-111 | a high pulse into a flip-flop only consumes the event |
| Day20.RunAdd | day20/src/main.rs:100-113 | running `a` steps and then `b` steps is running `a + b` steps |
| Day20.Dequeued | day20/src/main.rs:100-113 | no more events are dequeued than steps allowed |
| Day20.RunCounts | day20/src/main.rs:100-113 | the two counters grow by exactly the number of events dequeued and never shrink; a run that stops early has an empty queue |
| Day20.RunShape | day20/src/main.rs:100-113 | pressing never changes any module's name, type, destinations or the set of names |
| Day20.StepKeepsWired | day20/src/main.rs:106-111 | every queued event keeps coming from a module of the set, or from the button |
| Day20.ReplaceKeepsMemoryKeys | day20/src/main.rs:106-111 | replacing one module by one with the same shape and memory keys keeps every network invariant |
| Day20.SameShapeInputs | day20/src/main.rs:117-128 | maps with the same names and wiring have the same inputs for every module |
| Day20.StepKeepsMemoryKeys | day20/src/main.rs:106-111 | once seeded, a step never adds a key to a conjunction's memory: pulses only arrive from remembered inputs |
| Day20.RunKeepsMemoryKeys | day20/src/main.rs:100-113 | the same holds for any number of steps |
| Day20.SeededRemembersInputs | day20/src/main.rs:116-136 | after seeding, every conjunction remembers each of its inputs |
| Day20.PressKeepsSeededKeys | day20/src/main.rs:139-149 | any number of steps after `reset` leaves every conjunction's memory keyed by exactly what seeding gave it |
| Day20.ModuleSet.Deliver | day20/src/main.rs:100-112 | one turn of the queue loop: modules, queue and counters become what `Step` gives |
| Day20.ModuleSet.PressButton | day20/src/main.rs:97-114 | the new modules and counters and the remaining queue are `Run` from the button's low pulse for the number of events dequeued; together the counters grow by exactly that number; a press with any fuel dequeues at least the button's event, adding at least one to the low counter |
| Day20.RunOneMore | day20/src/main.rs:100-113 | while events remain, one more turn of the loop is one more `Step` |
| Day20.DequeuedStops | day20/src/main.rs:100-113 | once the queue drains, further steps change nothing |
| Day12.ParseReport | day12/src/main.rs:13-30 | an error carrying the count unless the line has two space-separated sections; each spring is read back as the character it came from; one group per comma-separated number, holding that number's value |
| Day12.SplitReport | day12/src/main.rs:15-25 | a written record splits on ` ` into its springs and its numbers, and the numbers split on `,` back into the sizes written |
| Day12.ParseFormatReport | day12/src/main.rs:13-30 | a record with at least one group, written as a line, reads back as itself |
| Day12.FormatSolutionInverse | day12/src/main.rs:123-130 | a fully known state is written with `#` and `.` only, and reading it back gives the state |
| Day12.FitsIsRuns | day12/src/main.rs:38-120 | the scan from index `i` with a group in progress accepts exactly the strings whose maximal `#` runs are the remaining groups (for positive group sizes) |
| Day12.FitsNoneLeft | day12/src/main.rs:41-62 | with no groups left, a string fits only when no group is open and no `#` follows |
| Day12.FitsTooBig | day12/src/main.rs:66-71 | a group larger than the next size wanted never fits |
| Day12.Lead | day12/src/main.rs:64-71 | the length of the leading `#` run, at most the string |
| Day12.LeadHashes | day12/src/main.rs:64-71 | a run of `n` `#` followed by anything else leads with exactly `n` |
| Day12.RunsAfterHashes | day12/src/main.rs:72-83 | a run of `n > 0` `#` followed by anything else is the group `n` before the runs of the rest |
| Day12.Unknowns | day12/src/main.rs:84-93 | the number of unknown springs, at most the state's length |
| Day12.UnknownsFill | day12/src/main.rs:87-91 | filling one unknown spring leaves one fewer, so the recursion ends |
| Day12.OnlyArrangement | day12/src/main.rs:97-114 | a fully known state has exactly one arrangement, its own written form |
| Day12.ArrangementSplit | day12/src/main.rs:84-93 | every arrangement of a state with an unknown spring is an arrangement of the `#` branch or of the `.` branch |
| Day12.FillOperational | day12/src/main.rs:53-61 | setting the remaining unknowns to `.` gives the one arrangement with no `#` from the index on |
| Day12.Combinations | day12/src/main.rs:38-120 | the results are exactly the arrangements of the state that the scan from `index` accepts, each once |
| Day12.PossibleCombinations | day12/src/main.rs:34-36 | the results are exactly the fillings of the unknowns, each once, whose `#` runs are the groups |
| Day14.TileOf | day14/src/main.rs:32-39 | `#` is a cube, `O` a round rock, `.` empty |
| Day14.ParseLine | day14/src/main.rs:25-28 | as many tiles as characters; the tiles themselves are fixed by `Day14.PrintParsed` |
| Day14.PrintParsed | day14/src/main.rs:209-218 | printing a parsed line gives the line back |
| Day14.ShiftedLeft | day14/src/main.rs:127-153 | the shifted line keeps its length and every cube |
| Day14.ShiftedRight | day14/src/main.rs:155-181 | the shifted line keeps its length and every cube |
| Day14.ShiftedLeftOn | day14/src/main.rs:130-151 | within each stretch between cubes, the stretch's round rocks fill its leftmost cells |
| Day14.ShiftedRightOn | day14/src/main.rs:158-179 | within each stretch between cubes, the stretch's round rocks fill its rightmost cells |
| Day14.ShiftedLeftPacked | day14/src/main.rs:127-153 | after shifting left, no empty cell is followed by a round rock in its stretch |
| Day14.ShiftedRightPacked | day14/src/main.rs:155-181 | after shifting right, no round rock is followed by an empty cell in its stretch |
| Day14.ShiftedLeftKeepsRounds | day14/src/main.rs:127-153 | shifting left keeps the number of round rocks |
| Day14.ShiftedRightKeepsRounds | day14/src/main.rs:155-181 | shifting right keeps the number of round rocks |
| Day14.ShiftLeftIdempotent | day14/src/main.rs:127-153 | shifting left twice is shifting left once |
| Day14.ShiftRightIdempotent | day14/src/main.rs:155-181 | shifting right twice is shifting right once |
| Day14.ShiftedStretchRounds | day14/src/main.rs:127-181 | each stretch between cubes keeps its number of round rocks under both shifts |
| Day14.FillRound | day14/src/main.rs:134-136 | the cells of the range become round rocks and the others stay |
| Day14.DropAfterCube | day14/src/main.rs:132-139 | at a cube, the rocks carried so far land right after it |
| Day14.ShiftLeftStep | day14/src/main.rs:131-147 | one cell of the right-to-left scan keeps the scan invariant |
| Day14.ShiftLeft | day14/src/main.rs:127-153 | the in-place scan computes the left-shifted line |
| Day14.DropBeforeCube | day14/src/main.rs:160-167 | at a cube, the rocks carried so far land right before it |
| Day14.ShiftRightStep | day14/src/main.rs:159-175 | one cell of the left-to-right scan keeps the scan invariant |
| Day14.ShiftRight | day14/src/main.rs:155-181 | the in-place scan computes the right-shifted line |
| Day14.TransposeTwice | day14/src/main.rs:52-80 | transposing a rectangular grid twice gives it back, so `from_cols` undoes `from_rows` |
| Day14.FromRows | day14/src/main.rs:52-65 | the platform keeps the rows and its columns are their transpose |
| Day14.FromCols | day14/src/main.rs:67-80 | the platform keeps the columns and its rows are their transpose |
| Day14.ParsePlatform | day14/src/main.rs:45-48 | one parsed line per row, rows at least as long as the first, and columns of the first row's width |
| Day14.TotalTranspose | day14/src/main.rs:52-80 | transposing keeps the number of round rocks |
| Day14.North | day14/src/main.rs:82-88 | every column is shifted towards row 0 and the rows are rebuilt from them: a rectangle as high as the platform and as wide as its first row, so tiles beyond that width are dropped; on a rectangle, same size and rock count |
| Day14.West | day14/src/main.rs:90-96 | every row is shifted towards column 0 and keeps its length, and the columns are rebuilt; on a rectangle, same size and rock count |
| Day14.South | day14/src/main.rs:98-104 | every column is shifted towards the last row and the rows are rebuilt from them, as wide as the first row; on a rectangle, same size and rock count |
| Day14.East | day14/src/main.rs:106-112 | every row is shifted towards the last column and keeps its length, and the columns are rebuilt; on a rectangle, same size and rock count |
| Day14.TiltNorth | day14/src/main.rs:82-88 | the column loop gives the north tilt |
| Day14.TiltWest | day14/src/main.rs:90-96 | the row loop gives the west tilt |
| Day14.TiltSouth | day14/src/main.rs:98-104 | the column loop gives the south tilt |
| Day14.TiltEast | day14/src/main.rs:106-112 | the row loop gives the east tilt |
| Day14.TiltTwice | day14/src/main.rs:82-112 | tilting the same way twice is tilting once |
| Day14.ShiftEachLeft | day14/src/main.rs:84-86 | the loop over lines computes them shifted left |
| Day14.ShiftEachRight | day14/src/main.rs:100-102 | the loop over lines computes them shifted right |
| Day14.TotalShiftLeft | day14/src/main.rs:84-86 | shifting every line left keeps the grid's rock count |
| Day14.TotalShiftRight | day14/src/main.rs:100-102 | shifting every line right keeps the grid's rock count |
| Day14.TiltedByColumns | day14/src/main.rs:67-88 | a platform rebuilt from shifted columns is a rectangle of the first row's width; when the platform was a rectangle, it keeps size and rock count |
| Day14.TiltedByRows | day14/src/main.rs:52-66 | a platform rebuilt from shifted rows keeps every row's length; when the platform was a rectangle, it keeps size and rock count |
| Day14.SpinCycle | day14/src/main.rs:195-198 | one cycle is the north, west, south and east tilts in turn; it ends with a rectangle as high as the platform and as wide as its first row, with the same rock count when the platform was a rectangle |
| Day14.NorthLoad | day14/src/main.rs:114-123 | the load is the sum over rows of their round rocks times the number of rows from that row to the south edge |
| Day14.LoadBounds | day14/src/main.rs:114-123 | the load lies between the number of round rocks and that number times the height |
| Day5.LookupMiss | day5/src/main.rs:19-26 | a number that no range covers maps to itself |
| Day5.LookupFirst | day5/src/main.rs:19-26 | a number moves by the offset of the first range that covers it |
| Day5.Get | day5/src/main.rs:19-26 | the loop with its early return computes that lookup |
| Day5.RangeOf | day5/src/main.rs:120-123 | a line `dest src len` becomes the range from `src` of `len` numbers, moved to `dest` |
| Day5.RangeLineRoundTrip | day5/src/main.rs:120-123 | a range written as a line reads back as itself |
| Day5.LineRangeRoundTrip | day5/src/main.rs:120-123 | a line read as a range writes back as itself |
| Day5.LookupParsed | day5/src/main.rs:19-26 | `src + d` maps to `dest + d` for each `d < len` unless an earlier range covers it |
| Day5.MapOf | day5/src/main.rs:110-126 | the map has one range per data line when every line has three numbers; otherwise the error gives the count on the first bad line; parsed maps never move a number below zero |
| Day5.ParseMap | day5/src/main.rs:110-126 | the loop with its early error return computes that map |
| Day5.Locations | day5/src/main.rs:30-43 | one location per seed, in seed order, each the seed sent through the seven maps |
| Day5.LocationOf | day5/src/main.rs:33-39 | the seven lookups in turn give the seed's location |
| Day5.LocationWithoutRanges | day5/src/main.rs:30-43 | with no ranges at all, every seed is its own location |
| Day5.SpanHas | day5/src/main.rs:82-84 | a span from `a` to `b` holds exactly the numbers `a <= x < b` |
| Day5.Span | day5/src/main.rs:82-84 | the numbers from `a` up to `b`, in increasing order |
| Day5.ExpandedFrom | day5/src/main.rs:79-86 | one pair expanded before the rest is the expansion from that pair on |
| Day5.ExpandedSpec | day5/src/main.rs:79-86 | the expanded seeds are exactly the numbers inside some `(start, len)` pair, and there are as many as the lengths add up to |
| Day5.PushSpan | day5/src/main.rs:82-84 | one pair's numbers are appended in increasing order |
| Day5.ExpandSeeds | day5/src/main.rs:79-86 | the loop over pairs computes the expansion |
| Day5.AlmanacOf | day5/src/main.rs:45-68 | the almanac keeps the seeds and maps no number below zero |
| Day5.Type1 | day5/src/main.rs:45-68 | the seeds are the numbers as given and the seven maps are the parsed sections |
| Day5.Type2 | day5/src/main.rs:70-104 | the seeds are the expanded pairs, as many as the lengths add up to, and the maps are the parsed sections |
| Day7.CardOrder | day7/src/main.rs:17-32 | cards rank `J` < `2` < … < `9` < `T` < `Q` < `K` < `A` |
| Day7.CharOfCardOf | day7/src/main.rs:139-156 | reading a card character and writing the card gives the character |
| Day7.CardOfCharOf | day7/src/main.rs:139-156 | writing a card and reading it gives the card |
| Day7.CardOfInjective | day7/src/main.rs:139-156 | different characters read as different cards |
| Day7.RankInjective | day7/src/main.rs:17-32 | two cards have the same rank exactly when they are the same card |
| Day7.ParseHand | day7/src/main.rs:47-56 | an error carrying the count unless the line has exactly two space-separated words; the hand has one card per character |
| Day7.ParseFormatHand | day7/src/main.rs:47-56 | a hand written as its cards, a space and its bid reads back as itself |
| Day7.GroupOf | day7/src/main.rs:60-70 | the group maps exactly the cards present to how often they occur |
| Day7.Group | day7/src/main.rs:60-70 | the loop computes that group |
| Day7.GroupSum | day7/src/main.rs:60-70 | the counts add up to the number of cards |
| Day7.ShapeFromGroup | day7/src/main.rs:86-88 | the labels are the group's keys without the joker; the largest group is the largest non-joker count, and is 0 only when there is no label; the joker count is the group's joker entry, removed |
| Day7.FirstFit | day7/src/main.rs:88-112 | the first arm of the match that fits decides the type |
| Day7.FiveOfAKindHands | day7/src/main.rs:89-94 | five jokers, or a single other label, give five of a kind |
| Day7.HighCardHands | day7/src/main.rs:110 | five different labels give a high card |
| Day7.FullHouseHands | day7/src/main.rs:100 | two labels, a largest group of three and no joker give a full house |
| Day7.FiveJokersArm | day7/src/main.rs:89 | five jokers make five of a kind |
| Day7.OneLabelArm | day7/src/main.rs:90-94 | one label with fewer than five jokers makes five of a kind |
| Day7.HighCardArm | day7/src/main.rs:110 | five labels make a high card |
| Day7.NoJokerBesideFiveLabels | day7/src/main.rs:110 | a hand of five cards with five labels has no joker |
| Day7.JokersBelow | day7/src/main.rs:87 | a hand with a non-joker card has fewer jokers than cards |
| Day7.MaxGroupBounds | day7/src/main.rs:88 | the largest group is at least every non-joker count |
| Day7.MaxGroupAttained | day7/src/main.rs:88 | the largest group is 0 exactly when no label remains, and otherwise is some label's count |
| Day7.WalkCards | day7/src/main.rs:122-127 | the loop returns the first unequal card comparison, or equal |
| Day7.PartialCmp | day7/src/main.rs:117-129 | hands compare by type, then card by card, then by bid |
| Day7.CompareCardsFlip | day7/src/main.rs:122-127 | comparing the cards the other way round flips the result |
| Day7.CompareCardsEqual | day7/src/main.rs:122-127 | the cards compare equal exactly when they are the same |
| Day7.CompareCardsTrans | day7/src/main.rs:122-127 | the card comparison is transitive |
| Day7.CompareFlip | day7/src/main.rs:116-136 | the hand comparison is antisymmetric |
| Day7.CompareEqual | day7/src/main.rs:116-136 | two hands compare equal exactly when they are the same hand |
| Day7.CompareTrans | day7/src/main.rs:116-136 | the hand order is transitive |
| Day7.CompareTotal | day7/src/main.rs:116-136 | any two hands are ordered one way or the other |
| Day7.HandOrder | day7/src/main.rs:116-136 | on hands of one width, the order is a total preorder that is antisymmetric |
| Day7.Insert | day7/src/main.rs:160-162 | inserting into a sorted sequence keeps it sorted and adds exactly the element |
| Day7.InsertionSort | day7/src/main.rs:160-162 | the result is sorted and a permutation of the input |
| Day7.SortedUnique | day7/src/main.rs:160-162 | two sorted permutations under an antisymmetric order are equal, so any correct sort gives the same hands |
| Day7.Set.FromLines | day7/src/main.rs:37-41 | one parsed hand per line, in order |
| Day7.Set.Sort | day7/src/main.rs:160-162 | the hands end sorted and are a permutation of the hands before |
| Day7.WinningsWeighted | day7/src/main.rs:164-170 | the winnings add each bid times its position, counted from 1 |
| Day7.Set.Winnings | day7/src/main.rs:164-170 | the loop computes those winnings |
| Day10.Moves | day10/src/main.rs:28-42 | each move changes one coordinate by one, the four moves differ, opposite moves undo each other, and they are all the neighbours there are |
| Day10.PipeChar | day10/src/main.rs:68-79 | every pipe is written with one of `\|-LJ7FS` |
| Day10.PipeCharRoundTrip | day10/src/main.rs:68-79 | reading and writing pipe characters are inverse |
| Day10.Points | day10/src/main.rs:81-91 | two distinct neighbours for every pipe and four for the start, all adjacent |
| Day10.DrawnStep | day10/src/main.rs:53-58 | a `.` adds nothing and any other character adds its pipe at its row and column |
| Day10.DrawnRow | day10/src/main.rs:50-60 | finishing a row is starting the next |
| Day10.Render | day10/src/main.rs:68-79 | the drawing has the given number of rows and each row the given width |
| Day10.ParseMap | day10/src/main.rs:48-64 | the loops compute the pipes of the lines |
| Day10.RenderParsed | day10/src/main.rs:48-64 | drawing the parsed pipes with the same row widths gives the lines back |
| Day10.ParseRendered | day10/src/main.rs:48-64 | parsing drawn pipes gives the pipes back |
| Day10.Next | day10/src/main.rs:110-127 | there is a next point exactly when `current` holds a pipe other than the start that connects to `previous`, and it is the pipe's other end |
| Day10.NextReverse | day10/src/main.rs:110-127 | stepping back from the next point returns to the previous one |
| Day10.Longest | day10/src/main.rs:155-170 | the loop computes the walk from the start through `next` |
| Day10.WalkClosed | day10/src/main.rs:155-170 | a walk that closes follows a path of connected pipes back to the start, and its step count is the path's length |
| Day10.PathWalks | day10/src/main.rs:155-170 | a path of connected pipes back to the start makes the walk close with that step count |
| Day10.WalkFuel | day10/src/main.rs:155-170 | more fuel does not change a walk that ended |
| Day10.FindStart | day10/src/main.rs:146-153 | the point found holds the start |
| Day10.Options | day10/src/main.rs:132-139 | the options are exactly the lengths of the directions whose walks close |
| Day10.Largest | day10/src/main.rs:143 | the largest option, which is among the options |
| Day10.LoopFromStart | day10/src/main.rs:129-144 | none exactly when no direction closes; otherwise the longest closed walk |
| Day11.ParseRaw | day11/src/main.rs:21-31 | the loops compute the raw grid |
| Day11.DrawRoundTrip | day11/src/main.rs:21-31 | drawing and reading are inverse on grids of `#` and `.` |
| Day11.Galaxies | day11/src/main.rs:42-52 | exactly the true cells, in row-major order |
| Day11.RowGalaxies | day11/src/main.rs:43-51 | a row's galaxies before column `n` are exactly its true cells there, in column order |
| Day11.GalaxiesDistinct | day11/src/main.rs:42-52 | no galaxy is listed twice |
| Day11.ScanRow | day11/src/main.rs:43-51 | one row's loop adds that row's galaxies, finds whether it is empty and clears the columns it touches |
| Day11.Image.From | day11/src/main.rs:35-58 | the galaxies in row-major order and, for each row and column, whether it holds no galaxy |
| Day11.SpanBounds | day11/src/main.rs:63-69 | crossing `k` rows costs between `k` and a million times `k` |
| Day11.SpanSplit | day11/src/main.rs:63-69 | the cost of crossing adds up over consecutive ranges |
| Day11.Image.Distance | day11/src/main.rs:60-97 | the loops compute a million for each empty row or column crossed and one for each other |
| Day11.DistProperties | day11/src/main.rs:60-97 | the distance is symmetric, zero from a point to itself, at least the Manhattan distance and at most a million times it |
| Day11.BetweenTriangle | day11/src/main.rs:63-96 | the expanded span between two coordinates obeys the triangle inequality |
| Day11.DistTriangle | day11/src/main.rs:60-97 | the distance obeys the triangle inequality |
| Day11.IndexPairsSpec | day11/src/main.rs:99-107 | the pairs are exactly the `(i, j)` with `i < j`, each once, in order |
| Day11.ValidPairs | day11/src/main.rs:99-107 | every listed index pair is in range |
| Day11.PairCount | day11/src/main.rs:99-107 | there are `n(n - 1)/2` pairs |
| Day11.Image.Pairs | day11/src/main.rs:99-107 | the loops list the galaxies at those index pairs |
| Day3.CharacterOf | day3/src/main.rs:31-39 | `.` is blank, a decimal digit is its value, anything else a symbol |
| Day3.CharacterRoundTrip | day3/src/main.rs:31-39 | reading and writing blank and digit characters are inverse |
| Day3.SchematicOf | day3/src/main.rs:17-27 | as many rows as lines and as many cells as characters in each |
| Day3.ParseSchematic | day3/src/main.rs:17-27 | the loops compute the schematic |
| Day3.RunStart | day3/src/main.rs:57-63 | where the run of digits ending at a column starts |
| Day3.ValueIsPositional | day3/src/main.rs:57-63 | the number built digit by digit is the decimal value of the run |
| Day3.ValueShift | day3/src/main.rs:57-63 | the leading digit contributes its positional weight |
| Day3.ContainsSymbol | day3/src/main.rs:81-90 | true exactly when a cell of the inclusive rectangle is a symbol |
| Day3.ScanRowAsWritten | day3/src/main.rs:54-76 | one row of the scan as written |
| Day3.FindPartNumbers | day3/src/main.rs:51-79 | the numbers the scan as written pushes, in row-major order of the cell ending each run |
| Day3.ScanRow | day3/src/main.rs:54-76 | one row of the corrected scan, including a run at the row's end |
| Day3.FindParts | day3/src/main.rs:51-79 | the numbers the corrected scan pushes |
| Day3.WindowIsNeighbourhood | day3/src/main.rs:66-70 | the corrected rectangle holds a symbol exactly when a symbol touches a digit of the run |
| Day3.LastColumnRunDropped | day3/src/main.rs:54-76 | on `#7` the scan as written finds nothing, the corrected scan finds 7 |
| Day3.WindowTooWide | day3/src/main.rs:69 | on `1.#` the scan as written finds 1, the corrected scan nothing |
| Day13.LineRoundTrip | day13/src/main.rs:37-50 | reading and writing lines are inverse |
| Day13.Show | day13/src/main.rs:37-50 | a shown line uses only `#` and `.` |
| Day13.Transpose | day13/src/main.rs:57-64 | column `c`, row `r` is row `r`, column `c` |
| Day13.TransposeTwice | day13/src/main.rs:57-64 | transposing a rectangle twice gives it back |
| Day13.ParsePattern | day13/src/main.rs:55-69 | the rows are the parsed lines and the columns their transpose |
| Day13.CheckMirror | day13/src/main.rs:87-99 | true exactly when every pair of lines at equal distance from the split is equal |
| Day13.ReflectsReversed | day13/src/main.rs:87-99 | a split is a mirror exactly when the mirrored split of the reversed lines is |
| Day13.FindMirror | day13/src/main.rs:73-85 | the first row split that mirrors; column splits only when no row split does; none only when no split of either kind mirrors |
| Day13.NumberDecodes | day13/src/main.rs:18-23 | the number tells the mirror apart, for columns below 100 |
| Day8.DirectionOf | day8/src/main.rs:13-19 | `L` is left and `R` right |
| Day8.DirectionChar | day8/src/main.rs:13-19 | every direction is written with a character that reads back as it |
| Day8.FormatRoundTrip | day8/src/main.rs:38 | the name and both neighbours are read back from their fixed columns |
| Day8.NetworkOfKeys | day8/src/main.rs:34-41 | the network's names are exactly the lines' names |
| Day8.NetworkOfLookup | day8/src/main.rs:34-41 | each name maps to the node of its last line |
| Day8.ParseNetwork | day8/src/main.rs:34-41 | the loop computes the network |
| Day8.AtShift | day8/src/main.rs:50 | the walk restarts its direction cycle after a whole number of laps |
| Day8.Steps | day8/src/main.rs:45-57 | zero when already there; otherwise the first step count at which the walk stands on `to`, or the step at which it leaves the network |
| Day8.StartList | day8/src/main.rs:62-66 | exactly the names whose third character is `A`, each once |
| Day8.AnyWalking | day8/src/main.rs:67 | true exactly when some ghost's name does not end in `Z` |
| Day8.Advance | day8/src/main.rs:69-76 | every ghost moves the same way, or the step fails on a name not in the network |
| Day8.GhostsAreWalks | day8/src/main.rs:67-78 | after `i` steps the ghosts are where their own walks are, as many as at the start |
| Day8.Tick | day8/src/main.rs:67-78 | one turn of the loop is one step of all ghosts |
| Day8.GhostWalk | day8/src/main.rs:67-79 | the first step count at which every ghost stands on a `Z` name, or where a ghost leaves the network |
| Day8.ReachedOutcome | day8/src/main.rs:67-79 | all ghosts on `Z` names at step `n`, having walked until then, is the outcome `n` |
| Day8.MissingOutcome | day8/src/main.rs:69-76 | a ghost leaving the network at step `n + 1` is the missing outcome |
| Day8.OutOfFuelOutcome | day8/src/main.rs:67-79 | ghosts still walking past the fuel is running out of fuel |
| Day8.GhostSteps | day8/src/main.rs:59-80 | the same, starting from every `A` name |
| Day8.GhostsBySet | day8/src/main.rs:67-78 | whether the ghosts go on, and whether all are done, depends only on which names they started from |
| Day8.SameStep | day8/src/main.rs:67-78 | two start lists of the same names go on and finish at the same steps |
| Day8.SameOutcome | day8/src/main.rs:59-80 | an outcome for one start list is an outcome for any list of the same names |
| Day8.OutcomeUnique | day8/src/main.rs:67-79 | the loop has only one outcome for a start list |
| Day8.GhostOutcomeOrderFree | day8/src/main.rs:62-80 | the outcome does not depend on the order the `HashMap` yields the start names in |
| Day4.ScoreSteps | day4/src/main.rs:16-23 | no match scores 0, one scores 1, each further one doubles |
| Day4.ScoreMonotone | day4/src/main.rs:16-23 | more matches never score fewer points |
| Day4.PointsZero | day4/src/main.rs:16-27 | a card scores nothing exactly when no number matches |
| Day4.PointsOneMore | day4/src/main.rs:16-27 | one more matching number adds one win and brings the points to 1 or doubles them |
| Day4.ParseCard | day4/src/main.rs:33-50 | an error carrying the count unless there are two `:` sections, then one unless there are two `\|` lists; otherwise the number is the header's last space-separated word, and the two sets hold exactly the numbers of the two lists |
| Day4.ParseFormat | day4/src/main.rs:33-50 | a written card reads back with its number and its two lists as sets, for any run of spaces before the number and before each list entry (the puzzle's aligned columns) |
| Day4.Copies | day4/src/main.rs:65-69 | one card amounts to at least itself |
| Day4.TallyPop | day4/src/main.rs:65-69 | popping a card and pushing the copies it wins lowers the cards still to count by exactly one |
| Day4.Tally | day4/src/main.rs:65-70 | the cards counted from a queue, at least the queue's length |
| Day4.Won | day4/src/main.rs:67-69 | the numbers of the cards won all name cards of the list |
| Day4.TallyWon | day4/src/main.rs:67-69 | the cards counted from those won are the copies of the cards just after |
| Day4.TallyRange | day4/src/main.rs:67-69 | the copies pushed for a card are the cards after its number |
| Day4.LastCardAlone | day4/src/main.rs:67-69 | the last card wins nothing |
| Day4.TotalAtLeast | day4/src/main.rs:62-71 | there are at least as many scratchcards as original cards |
| Day4.QueueCopies | day4/src/main.rs:67-69 | the queue grows by the numbers of the won cards, in order |
| Day4.Scratchcards | day4/src/main.rs:62-71 | the count is the number of cards dequeued, at least the number of original cards |
| Day2.PointsZeroOne | day2/src/main.rs:13-20 | no points exactly when no number matches; one match is one point |
| Day2.PointsMonotone | day2/src/main.rs:13-20 | more matches never score fewer points, and each further match doubles them |
| Day2.SameScoring | day2/src/main.rs:13-20 | a card scores as its day 4 namesake |
| Day2.BodyAfterLastColon | day2/src/main.rs:27 | the body is what follows the last `:` |
| Day2.ParseCard | day2/src/main.rs:26-38 | an error carrying the count unless the body has two `\|` lists; the sets are the lists' numbers |
| Day2.ParseFormat | day2/src/main.rs:26-38 | a written card reads back as its two sets, whatever its title and however its columns are padded |
| Day6.Parse | day6/src/main.rs:9-27 | race `i` pairs the `i`th time with the `i`th distance |
| Day6.LabelledLine | day6/src/main.rs:14-15 | the numbers after the `:` of a written line are read back |
| Day6.ParseFormat | day6/src/main.rs:9-27 | written races read back as their times and distances |
| Day6.MinToBeat | day6/src/main.rs:30-38 | the shortest winning hold |
| Day6.MaxToBeat | day6/src/main.rs:40-48 | the longest winning hold |
| Day6.TravelSymmetric | day6/src/main.rs:32 | holding `i` or `time - i` goes equally far |
| Day6.TravelBetween | day6/src/main.rs:32 | holds between `a` and `time - a` go at least as far as `a` |
| Day6.WinnersInterval | day6/src/main.rs:30-52 | the shortest winning hold is at least 1, the longest is its mirror, and the winners are exactly the holds between them |
| Day6.WaysToBeat | day6/src/main.rs:50-52 | the number of winning holds |
| Day1.TableDigits | day1/src/main.rs:9-30 | every value of the table is a digit from 1 to 9 |
| Day1.TablePrefixFree | day1/src/main.rs:9-30 | no key of the table is a prefix of another |
| Day1.SameStart | day1/src/main.rs:9-30 | two keys occurring at the same position are the same key |
| Day1.FirstUnique | day1/src/main.rs:9-30 | only one key gives the line's first digit |
| Day1.LastUnique | day1/src/main.rs:9-30 | only one key gives the line's last digit |
| Day1.EarliestIsFirst | day1/src/main.rs:44-49 | the key whose first occurrence is earliest is the key of the line's first digit |
| Day1.LatestFirstUnique | day1/src/main.rs:50-53 | only one key has the latest first occurrence |
| Day1.VisitKeyAsWritten | day1/src/main.rs:44-55 | one turn of the loop keeps the earliest and latest first occurrences seen so far |
| Day1.SkipAsWritten | day1/src/main.rs:45-53 | a key that does not occur leaves both bests as they were |
| Day1.VisitFirst | day1/src/main.rs:46-49 | the first-digit update keeps the earliest occurrence seen so far |
| Day1.VisitLastAsWritten | day1/src/main.rs:50-53 | the last-digit update as written keeps the latest first occurrence seen so far |
| Day1.EndAsWritten | day1/src/main.rs:56 | after every key, the bests are the earliest key and the key whose first occurrence is latest |
| Day1.CalibrationAsWritten | day1/src/main.rs:39-57 | ten times the value of the key found first plus the value of the key whose first occurrence is latest; between 11 and 99 |
| Day1.AsWrittenOrderFree | day1/src/main.rs:44-56 | the result does not depend on the order the table is visited in |
| Day1.LastDigitMisread | day1/src/main.rs:45-53 | on `212` the code as written gives 21 where the last digit gives 22 |
| Day1.MisreadOn212 | day1/src/main.rs:45-53 | on `212` the code as written picks `2` first and `1` last |
| Day1.DigitsOf212 | day1/src/main.rs:45-53 | the first and last digits of `212` are both `2` |
| Day1.RFind | day1/src/main.rs:45 | the last occurrence of a key, or none when it does not occur |
| Day1.FindRFind | day1/src/main.rs:45 | a key occurs first exactly when it occurs last, and not later |
| Day1.LatestIsLast | day1/src/main.rs:50-53 | the key whose last occurrence is latest is the key of the line's last digit |
| Day1.VisitKey | day1/src/main.rs:44-55 | one turn of the corrected loop keeps the earliest first and latest last occurrences seen so far |
| Day1.Skip | day1/src/main.rs:45-53 | a key that does not occur leaves both bests as they were |
| Day1.VisitLast | day1/src/main.rs:50-53 | the corrected update keeps the latest last occurrence seen so far |
| Day1.End | day1/src/main.rs:56 | after every key, the bests are the keys of the first and the last digit |
| Day1.RFindBelow | day1/src/main.rs:45 | the last occurrence starting before `n`, or none when there is none |
| Day1.Calibration | day1/src/main.rs:39-57 | ten times the first digit plus the last digit; between 11 and 99 |
| Day1.OrderFree | day1/src/main.rs:44-56 | the corrected result does not depend on the order the table is visited in |
| Day1.SingleKey | day1/src/main.rs:56 | a line where only one key occurs has eleven times that key's value |

## Left out

- Every `main`: arguments, files, printing, and the sums and products printed. `Day4.Scratchcards` lifts the day 4 copy queue out of `main`.
- Splitting the text into lines and sections, and reading decimal numbers: the parsers take lines, and day 5 takes number lists with the header line already skipped. Day 5's check for eight sections is not modelled.
- Machine integers: `usize`, `u32` and `isize` are unbounded. Day 4 and day 2 keep the `u32` bound on card numbers; nothing else models overflow, including day 4's `TWO.pow`.
- Day 9 is not part of this model.
- Day 14's billion-cycle loop and its cycle cache: one spin cycle is modelled.
- `HashMap` iteration order: day 20's `reset`, day 1's table walk and day 8's start list walk in any order, and the model proves that the order does not change the result (`Day20.SeededSpec`, `Day1.OrderFree`, `Day8.GhostOutcomeOrderFree`).
- Day10.FindStart: picks any point holding `S`, as the source's `HashMap` walk does; `Day10.LoopFromStart`'s result is stated for the point given, and nothing relates the results for two different `S` points.
- Day14.North: needs a non-empty first row, and so do `Day14.South`, the tilt methods and `Day14.SpinCycle`, because `from_cols` indexes `cols[0]`, which panics. Rows longer than the first are accepted, as in the source; rock count and size are promised only for rectangular platforms.
- Day20.Module: modules are values in a map, updated by replacement, not objects mutated in place.
- Day20.ModuleSet.PressButton: allowed at most `fuel` dequeues. The source loops until the queue drains, which the model does not prove always happens.
- Day10.Longest: allowed at most `fuel` steps, with `Exhausted` when they run out. The source's loop always ends: each step can be undone (`Day10.NextReverse`), there are finitely many (previous, current) pairs, and the walk stops when it comes back to the start. The fuel stands in for that termination proof, which the model does not give.
- Day10.LoopFromStart: takes the start point as a parameter and requires every one of the four walks to end within the fuel. This is the termination proof left out above, not a limit of the source.
- Day8.ParseNetwork: cuts each line at fixed character positions (`Day8.Sliceable` asks for 15 characters). The source cuts at byte positions, which is the same on ASCII lines. On a line with a multi-byte character in the first 15 bytes it may panic; the model does not cover that.
- Day8.Steps: allowed at most `fuel` steps. `Missing` stands for the `unwrap` panic on a name not in the network.
- Day8.GhostWalk: allowed at most `fuel` steps, with `Missing` for the `unwrap` panic.
- Day8.GhostSteps: requires a non-empty direction list, which the source needs only once a ghost is still walking.
- Day4.Scratchcards: requires every card to win only cards after it, as with cards numbered 1 to N in order. Otherwise the source's queue need not drain.
- Day5.MapOf: requires every range length to be positive. The source accepts a zero length when the start is positive, giving a range that covers nothing.
- Day13.FindMirror: requires at least one row and one column. The source panics on no rows, and on no columns only when no row split mirrors.
- Day7.Set.Sort: an insertion sort stands in for `Vec::sort`. `Day7.SortedUnique` shows that both give the same order. Sort requires every hand to have a type and all hands to have as many cards as the first. For the source, hands of any length are fine unless it compares two hands of the same type, the longer one first, that agree on every card of the shorter one. Then `other.cards[i]` runs past the end and panics (day7/src/main.rs:122-127). Its order is total only on hands of one width. Sets that mix widths and never hit such a tie are sorted by the source but are not covered by the model.
- Day12.Combinations: its characterisation through `#` runs (`FitsIsRuns`) holds for positive group sizes. With a size of 0 the source's own scan is modelled, but is not related to runs.
- Day11.Image.From: requires a non-empty grid with no galaxy beyond the first row's width, where the source would panic.

## Findings

| source | as written | input that shows it | evidently intended | confidence | as-written member | corrected member |
|---|---|---|---|---|---|---|
| day3/src/main.rs:54-76 | a digit run is checked only when a non-digit follows it in the row | schematic `#7` (one row) | the run `7` next to `#` is a part number | not executed | Day3.LastColumnRunDropped | Day3.FindParts |
| day3/src/main.rs:69 | the rectangle reaches `c + 1`, one column past the cell that ends the run | schematic `1.#` (one row) | `1` touches no symbol and is not a part | not executed | Day3.WindowTooWide | Day3.WindowIsNeighbourhood |
| day1/src/main.rs:45-53 | the last digit is taken from each key's first occurrence (`find`) | line `212` | the last digit is 2, giving 22 rather than 21 | not executed | Day1.LastDigitMisread | Day1.Calibration |
