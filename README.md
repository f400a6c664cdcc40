# A Dafny model of the h2o random-forest core, CSV parser and persistence helpers

This project models the parts of early h2o that grow and query random-forest
decision trees, read CSV bytes into typed records, decide when the key/value
store frees memory, and map keys to S3 objects and HDFS files. It proves
properties of the model.

- `rf_data.dfy` (module `RFData`) models `hexlytics.rf.Data`.
  - A `Data` view is either the adapter's rows in order (the root) or a
    `Subset` with a permutation of adapter row indices and a size.
  - `Row` and `RowIter` are the row cursor. `fillRow` sets its index through
    `permute`.
  - The three filters route every row of a view to a left or a right child
    `Subset`, in view order, and feed each row to that side's statistic.
  - `sampleWithReplacement` draws `floor(rows * pct)` rows and stores them
    sorted.
  - `complement` returns the parent's rows that the subset lacks.
- `gini.dfy` (module `GiniStatistic`) models `GiniStatistic`.
  - `gini` is the Gini impurity of a class histogram.
  - `columnSplit` is the threshold sweep over the bins of a column.
  - `columnExclusion` is the one-bin-against-the-rest sweep.
  - Both sweeps keep the first cut of minimal weighted impurity below 2.0.
    They report `Split.impossible` (the majority class) when no cut leaves
    rows on both sides.
- `decision_tree.dfy` (module `DecisionTree`) models `DecisionTree`.
  - It has leaf, sentinel and inner nodes, and a node counter that the leaf
    and inner constructors bump.
  - `setSubtree` attaches a subtree.
  - `classifyRecursive` is the iterative descent that answers -1 at an empty
    slot.
  - `toString` prints the nested form. `classify` is done on the tree.
  - The finished tree is also a value of the datatype `Tree`, and the node
    methods are proved equal to functions on it.
- `csv_fields.dfy` (module `CsvFields`) models the field parsers of
  `CSVParserKV`.
  - `getDigit` is on `(char)byte`.
  - `parseInt` accepts a radix and wraps to 32 bits.
  - `parseFloat` fills a `FloatingDecimal` digit buffer with its decimal
    exponent, leading-zero skipping and held-back fraction zeros.
- `csv_parser.dfy` (module `CsvParser`) models `CSVParserKV` over a single
  byte array.
  - `endField` stores a typed cell for the current column.
  - `endRecord` applies the partial-record policy: FILL, DROP or ERROR.
  - `hasNext` is the six-state scanner (INITIAL, QUOTED, ENDQUOTE,
    AFTER_QUOTED, NONQUOTEDFIELD, ENDLINE).
  - `next` hands out the record.
  - A pure scanner (`Scanner`, `Step`, `Run`) states the behaviour. The class
    `Parser`, with the parser's own fields, is proved to follow it.
- `memory_manager.dfy` (module `MemoryManager`) models `water.MemoryManager`.
  - The limits derived from `MEM_MAX`.
  - `setCacheSz`.
  - The cleaner's `removeValue` test, with the adaptive `_maxTime` age
    estimate.
  - The heap notification handler.
- `persist_s3.dfy` (module `PersistS3`) models `PersistS3`.
  - The `s3://bucket/key` encoding and its decoding.
  - `loadKey`'s classification of objects.
  - `lazyArrayChunk`'s chunk sizes.
  - `getObjectForKey`'s inclusive byte range.
- `persist_hdfs.dfy` (module `PersistHdfs`) models `PersistHdfs`.
  - The persistence-info byte that `file_store` and `file_delete` maintain.
  - `getPathForKey`'s escaping.
  - `decodeFile`'s key names, with the folder prefix that
    `loadPersistentKeysFromFolder` builds.
- `wrappers.dfy` (module `Wrappers`) holds `Option` and `Result`.

Java `double` and `float` arithmetic is modelled over `real`. Java `int`
wrap-around is written out where the source relies on it (`Wrap32` in
`parseInt`). Exceptions and `Error`s become `Result.Err` or a precondition;
the preconditions are listed under "## Left out".

## Model

| member | source | states |
|---|---|---|
| RFData.SidesPartition | src/hexlytics/rf/Data.java:161-175 | every row of the view goes to exactly one child: the two sides together are a permutation of the view's rows |
| RFData.SidesLength | src/hexlytics/rf/Data.java:161-175 | the sizes of the left and right children add up to the size of the parent view |
| RFData.SideMembers | src/hexlytics/rf/Data.java:166 | a row is on a side if and only if it belongs to the view and the test's answer selects that side |
| RFData.InsertCorrect | src/hexlytics/rf/Data.java:214 | inserting into a sorted sequence keeps it sorted and adds exactly that element |
| RFData.SortAscendingCorrect | src/hexlytics/rf/Data.java:214 | the sort used for the bag is an ascending permutation of its input |
| RFData.Row.constructor | src/hexlytics/rf/Data.java:14-15 | a new row belongs to its view and starts at index 0 |
| RFData.RowIter.constructor | src/hexlytics/rf/Data.java:40-42 | a new iterator starts at position 0 with a fresh row of its view |
| RFData.RowIter.Next | src/hexlytics/rf/Data.java:44 | next refills the one shared row with the adapter index of the current position and advances by one |
| RFData.Data.Make | src/hexlytics/rf/Data.java:55-57 | make wraps the adapter as a root view over all its rows |
| RFData.Data.Subset | src/hexlytics/rf/Data.java:247-253 | a subset keeps its parent, the adapter, its permutation and its size |
| RFData.Data.Indices | src/hexlytics/rf/Data.java:224-237 | the view lists rows() adapter indices, the i-th being permute(i) |
| RFData.Data.IndicesOfView | src/hexlytics/rf/Data.java:224-237 | the root view lists 0..rows-1 and a subset lists the first sz entries of its permutation |
| RFData.Data.FillRow | src/hexlytics/rf/Data.java:64 | fillRow sets the row's index to the adapter index of the given view position and returns the same row |
| RFData.Data.GetRow | src/hexlytics/rf/Data.java:67 | getRow returns a new row of this view at the adapter index of the given position |
| RFData.Data.Iterator | src/hexlytics/rf/Data.java:59 | the iterator starts at the first row of this view |
| RFData.Data.Visit | src/hexlytics/rf/Data.java:40-46 | iterating the view visits exactly its rows, in view order |
| RFData.Data.Route | src/hexlytics/rf/Data.java:162-172 | the loop fills li and ri with the rows the test sends left or right, in view order, and appends them to the matching statistic |
| RFData.Data.RouteInvNext | src/hexlytics/rf/Data.java:165-171 | one row's routing extends the side it is sent to by that row |
| RFData.Data.RouteStep | src/hexlytics/rf/Data.java:165-171 | one iteration keeps the routing invariant and the statistics equal to the rows routed so far |
| RFData.Data.Partition | src/hexlytics/rf/Data.java:161-175 | the two subsets of a filter hold exactly the rows on each side of the test, in view order, and each statistic received exactly its side's rows |
| RFData.Data.FilterBySplit | src/hexlytics/rf/Data.java:161-175 | filter(Split) sends rows whose binned value is below the split value left and all others right |
| RFData.Data.FilterByBin | src/hexlytics/rf/Data.java:177-191 | filter(column, split) sends rows whose column class is at most split left and all others right |
| RFData.Data.FilterExclusion | src/hexlytics/rf/Data.java:193-207 | filterExclusion sends the rows of bin split left and all others right |
| RFData.Data.SampleWithReplacement | src/hexlytics/rf/Data.java:209-216 | the bag holds floor(rows * pct) drawn rows, sorted, as a permutation of the draws, each a row of this view |
| RFData.Data.PicksAreRows | src/hexlytics/rf/Data.java:212-213 | every drawn index is an adapter row of this view |
| RFData.Data.Complement | src/hexlytics/rf/Data.java:218-263 | a subset's complement holds each of the parent's rows missing from the subset exactly once; on the root view it fails |
| RFData.Enumerate | src/hexlytics/rf/Data.java:259-261 | the set is listed with each element exactly once |
| GiniStatistic.SumSquares | src/hexlytics/rf/GiniStatistic.java:25-32 | the sum of squared class shares is non-negative |
| GiniStatistic.SquaresBelowSquaredTotal | src/hexlytics/rf/GiniStatistic.java:25-32 | for a non-negative histogram the sum of squared shares is at most the squared share of the total |
| GiniStatistic.GiniNonNegative | src/hexlytics/rf/GiniStatistic.java:25-32 | the Gini impurity of a non-negative histogram whose total is the weight is at least 0 |
| GiniStatistic.GiniPure | src/hexlytics/rf/GiniStatistic.java:25-32 | a histogram holding only one class has impurity 0 |
| GiniStatistic.Gini | src/hexlytics/rf/GiniStatistic.java:25-32 | the loop computes 1 minus the sum of squared shares of each class |
| GiniStatistic.LeftDist | src/hexlytics/rf/GiniStatistic.java:46-52 | the left histogram after n bins holds, per class, the count over those bins |
| GiniStatistic.Minus | src/hexlytics/rf/GiniStatistic.java:49-50 | the right histogram is the column's histogram less the left one, class by class |
| GiniStatistic.Fitness | src/hexlytics/rf/GiniStatistic.java:54-57 | a cut is skipped exactly when one side weighs 0; otherwise, when the weights split the total, its fitness is at most 1 |
| GiniStatistic.SplitCandidates | src/hexlytics/rf/GiniStatistic.java:44-62 | one candidate per cut position, each the fitness of cutting after that bin |
| GiniStatistic.ExclusionCandidates | src/hexlytics/rf/GiniStatistic.java:78-97 | one candidate per bin, each the fitness the exclusion sweep assigns it |
| GiniStatistic.SelectFirstMinimum | src/hexlytics/rf/GiniStatistic.java:58-65 | the chosen cut is the first of minimal fitness below 2.0, and -1 exactly when no candidate is below 2.0 |
| GiniStatistic.SelectStep | src/hexlytics/rf/GiniStatistic.java:58-61 | one more candidate replaces the best only when strictly better |
| GiniStatistic.MaxIndex | src/hexlytics/rf/GiniStatistic.java:63 | Utils.maxIndex returns a position of a largest class count |
| GiniStatistic.MoveBin | src/hexlytics/rf/GiniStatistic.java:46-52 | the bin's counts move from the right histogram to the left and its total moves between the weights |
| GiniStatistic.SwapBin | src/hexlytics/rf/GiniStatistic.java:80-87 | the left histogram becomes the bin's counts, the right the rest, and the weights move by the bin's total |
| GiniStatistic.Consider | src/hexlytics/rf/GiniStatistic.java:58-61 | the running best is the selection over the candidates seen so far |
| GiniStatistic.CutFitness | src/hexlytics/rf/GiniStatistic.java:54-57 | the fitness of the current arrays, or skipped when a side weighs 0 |
| GiniStatistic.SplitRound | src/hexlytics/rf/GiniStatistic.java:45-57 | one iteration leaves the histograms of a cut after bin i and yields that cut's fitness |
| GiniStatistic.ExclusionRound | src/hexlytics/rf/GiniStatistic.java:79-92 | one iteration isolates bin i in the left histogram, weights cumulative as written, and yields its fitness |
| GiniStatistic.SplitSweep | src/hexlytics/rf/GiniStatistic.java:40-62 | the sweep's result is the selection over all threshold candidates, for any node weight including 0 (an empty node, where every cut is skipped) |
| GiniStatistic.ColumnSplit | src/hexlytics/rf/GiniStatistic.java:34-66 | columnSplit answers the first best threshold cut with gain 1 - fitness, or impossible with a majority class when none exists; a node of weight 0 always answers impossible |
| GiniStatistic.ExclusionSweep | src/hexlytics/rf/GiniStatistic.java:74-97 | the sweep's result is the selection over all exclusion candidates, for any node weight including 0 |
| GiniStatistic.ColumnExclusion | src/hexlytics/rf/GiniStatistic.java:68-101 | columnExclusion answers the first best exclusion with its raw fitness (not 1 - fitness), or impossible with a majority class when none exists; a node of weight 0 always answers impossible |
| GiniStatistic.WeightBeforeMonotone | src/hexlytics/rf/GiniStatistic.java:46-52 | with non-negative bins the left weight never decreases along the sweep |
| GiniStatistic.LeftDistTotal | src/hexlytics/rf/GiniStatistic.java:46-52 | the left histogram's total is the left weight |
| GiniStatistic.MinusTotal | src/hexlytics/rf/GiniStatistic.java:49-52 | the right histogram's total is the column's total less the left's |
| GiniStatistic.FitnessAtMostOne | src/hexlytics/rf/GiniStatistic.java:55-57 | a cut whose side weights add up to the total scores at most 1 |
| GiniStatistic.ImpossibleIffAllSkipped | src/hexlytics/rf/GiniStatistic.java:58-65 | with every candidate below 2.0 the selection is -1 exactly when every cut is skipped |
| GiniStatistic.SplitCandidateAtMostOne | src/hexlytics/rf/GiniStatistic.java:55-57 | a threshold cut whose left weight lies within the total scores at most 1 |
| GiniStatistic.ExclusionCandidateAtMostOne | src/hexlytics/rf/GiniStatistic.java:90-92 | an exclusion cut whose cumulative left weight lies within the total scores at most 1 |
| GiniStatistic.NonNegWeightsWithin | src/hexlytics/rf/GiniStatistic.java:46-52 | for non-negative bins every prefix weight lies between 0 and the column's weight |
| GiniStatistic.SplitImpossibleIff | src/hexlytics/rf/GiniStatistic.java:54-65 | the threshold sweep answers impossible exactly when every cut leaves one side without rows |
| GiniStatistic.SplitImpossibleWithin | src/hexlytics/rf/GiniStatistic.java:54-65 | the same, under the weaker hypothesis that prefix weights lie within the total |
| GiniStatistic.ExclusionImpossibleIff | src/hexlytics/rf/GiniStatistic.java:89-100 | the exclusion sweep answers impossible exactly when every cut leaves one side without rows |
| GiniStatistic.ExclusionImpossibleWithin | src/hexlytics/rf/GiniStatistic.java:89-100 | the same, under the weaker hypothesis that prefix weights lie within the total |
| GiniStatistic.EmptyNodeImpossible | src/hexlytics/rf/GiniStatistic.java:53-65 | a node without rows skips every cut in both sweeps, so both answer impossible without dividing by its weight |
| GiniStatistic.SplitFitnessBounds | src/hexlytics/rf/GiniStatistic.java:54-57 | a threshold cut with non-negative sides scores a true weighted impurity in [0, 1] |
| GiniStatistic.CutSides | src/hexlytics/rf/GiniStatistic.java:46-52 | when dist is the column histogram, both sides of every threshold cut are non-negative |
| GiniStatistic.CutBounds | src/hexlytics/rf/GiniStatistic.java:55-57 | a cut between two non-negative histograms with matching weights scores in [0, 1] |
| GiniStatistic.ColSumMonotone | src/hexlytics/rf/GiniStatistic.java:46-52 | with non-negative bins each class count of the left histogram grows along the sweep |
| GiniStatistic.ThresholdGainBounds | src/hexlytics/rf/GiniStatistic.java:63-65 | the gain a threshold split reports lies in [0, 1] |
| GiniStatistic.SeparatedGroups | src/hexlytics/rf/GiniStatistic.java:34-66 | on bins [[1,0],[0,1],[0,1]] the pure cut after bin 0 is chosen with fitness 0 |
| GiniStatistic.SeparatedCuts | src/hexlytics/rf/GiniStatistic.java:54-57 | the two cuts of that column score 0 and 1/3 |
| GiniStatistic.IsolatedFitnessBounds | src/hexlytics/rf/GiniStatistic.java:78-92 | with consistent weights, isolating any bin scores a weighted impurity in [0, 1] |
| GiniStatistic.BinBelowColumn | src/hexlytics/rf/GiniStatistic.java:80-87 | a bin's count of a class is at most the column's count of it |
| GiniStatistic.ExclusionWeightMismatch | src/hexlytics/rf/GiniStatistic.java:78-92 | as written, bin 1 of [[1,0],[1,0],[0,2]] gets a negative right-side impurity and a score other than the consistent one |
| DecisionTree.Decide | src/hexlytics/DecisionTree.java:81-85 | a numeric split sends a row to branch 0 exactly when its column value is at most the split value, else to branch 1 |
| DecisionTree.DescendReachesLeaf | src/hexlytics/DecisionTree.java:73-91 | the descent answers the class of one of the tree's leaves or -1, and always a leaf's class when no slot is empty |
| DecisionTree.IntString | src/hexlytics/DecisionTree.java:32 | an int prints as a non-empty string of digits and minus signs |
| DecisionTree.CountConcat | src/hexlytics/DecisionTree.java:111-120 | occurrence counts add up over concatenation |
| DecisionTree.TreeStringGroups | src/hexlytics/DecisionTree.java:111-120 | the printed tree opens and closes one parenthesis per leaf and inner node with plain labels |
| DecisionTree.SlotsGroups | src/hexlytics/DecisionTree.java:114-117 | the printed slots open and close one parenthesis per node below them |
| DecisionTree.NodeCounter.constructor | src/hexlytics/DecisionTree.java:24 | the node count starts at 0 |
| DecisionTree.Node.SlotsAt | src/hexlytics/DecisionTree.java:53 | the tree view of slot k is the subtree stored there, or empty |
| DecisionTree.Node.Leaf | src/hexlytics/DecisionTree.java:30 | a leaf holds its class and bumps the node count by one |
| DecisionTree.Node.Sentinel | src/hexlytics/DecisionTree.java:39 | a sentinel wraps its classifier and leaves the node count alone |
| DecisionTree.Node.Inner | src/hexlytics/DecisionTree.java:61-64 | an inner node has one empty slot per class of its classifier and bumps the node count by one |
| DecisionTree.Node.NumClassesOf | src/hexlytics/DecisionTree.java:31 | a leaf answers 1, and other nodes their classifier's numClasses |
| DecisionTree.Node.Classify | src/hexlytics/DecisionTree.java:33 | a leaf answers its class, and other nodes their classifier's decision |
| DecisionTree.Node.SetSubtree | src/hexlytics/DecisionTree.java:105-107 | setSubtree fills exactly the empty slot given and nothing else |
| DecisionTree.Node.ClassifyRecursive | src/hexlytics/DecisionTree.java:34 | classifyRecursive of a leaf, a sentinel or an inner node answers the tree's classification |
| DecisionTree.Node.Walk | src/hexlytics/DecisionTree.java:73-91 | the while loop answers the class of the leaf the row reaches, or -1 at an empty slot |
| DecisionTree.Node.Render | src/hexlytics/DecisionTree.java:111-120 | toString prints "(leaf c)", the sentinel's text, or the classifier's name and slots in parentheses |
| DecisionTree.Node.RenderSlots | src/hexlytics/DecisionTree.java:114-117 | each slot prints as a space followed by its subtree, or by nothing when empty |
| DecisionTree.DecisionTree.constructor | src/hexlytics/DecisionTree.java:141 | the tree keeps the root it is given |
| DecisionTree.DecisionTree.Classify | src/hexlytics/DecisionTree.java:129-135 | classify answers the root's classification; the retry after -1 does not change it |
| DecisionTree.DecisionTree.Render | src/hexlytics/DecisionTree.java:143 | the tree prints as its root |
| CsvFields.CharOf | src/water/parser/CSVParserKV.java:696-697 | (char) of a byte keeps non-negative bytes and sign-extends negative ones into 0xFF80..0xFFFF |
| CsvFields.Chars | src/water/parser/CSVParserKV.java:405-407 | a field range [from, to) reads to - from characters, none when empty |
| CsvFields.GetDigit | src/water/parser/CSVParserKV.java:388-398 | digits give 0-9 and ASCII letters of either case give 10-35; every other character gives a value of at least 36 |
| CsvFields.Wrap32 | src/water/parser/CSVParserKV.java:424-432 | Java int arithmetic lands in [-2^31, 2^31) and leaves in-range values alone |
| CsvFields.WrapShift | src/water/parser/CSVParserKV.java:424-432 | adding multiples of 2^32 does not change the wrapped value |
| CsvFields.WrapNegate | src/water/parser/CSVParserKV.java:432 | negating after wrapping equals wrapping after negating |
| CsvFields.WrapMulAdd | src/water/parser/CSVParserKV.java:424 | the digit step may wrap at every step or only at the end |
| CsvFields.LeadLengthEnds | src/water/parser/CSVParserKV.java:409-416 | the leading part is the longest prefix of whitespace and signs |
| CsvFields.DigitLengthEnds | src/water/parser/CSVParserKV.java:417-426 | the digit part is the longest run of radix digits after it |
| CsvFields.ParseInt | src/water/parser/CSVParserKV.java:400-434 | parseInt accepts exactly a field of whitespace and signs, radix digits and trailing whitespace, with the wrapped signed value; an empty field gives 0 |
| CsvFields.IntChar | src/water/parser/CSVParserKV.java:408-430 | one character either keeps the scan consistent with the field's value or proves the field is rejected |
| CsvFields.IntEnd | src/water/parser/CSVParserKV.java:432-433 | the end of the scan answers the field's value |
| CsvFields.FloatingDecimal.constructor | src/water/parser/CSVParserKV.java:437-441 | the digit buffer starts empty with the given capacity and exponent 0 |
| CsvFields.FloatingDecimal.Push | src/water/parser/CSVParserKV.java:497-498 | a stored digit is appended to the buffer |
| CsvFields.FloatingDecimal.FlushZeros | src/water/parser/CSVParserKV.java:519-522 | the held-back zeros are appended to the buffer |
| CsvFields.ParseFloat | src/water/parser/CSVParserKV.java:436-546 | parseFloat's buffer, exponent and sign are those of the corrected scan of the field, and the buffer never overflows |
| CsvFields.FloatPass | src/water/parser/CSVParserKV.java:442-543 | one pass either ends the scan with its answer or continues it from the next character |
| CsvFields.FloatChar | src/water/parser/CSVParserKV.java:445-543 | one character updates the buffer as the corrected scan's step does |
| CsvFields.IntFieldDecimal | src/water/parser/CSVParserKV.java:400-434 | a field of at most nine decimal digits parses to its value |
| CsvFields.IntFieldNegative | src/water/parser/CSVParserKV.java:400-434 | "-" followed by at most nine decimal digits parses to minus their value |
| CsvFields.NineDigitsFit | src/water/parser/CSVParserKV.java:424 | nine decimal digits never overflow a Java int |
| CsvFields.IntFieldWhole | src/water/parser/CSVParserKV.java:400-434 | a field of signs then digits parses to the wrapped signed value of the digits |
| CsvFields.IntFieldUnsigned | src/water/parser/CSVParserKV.java:400-434 | a field of decimal digits parses to their wrapped value |
| CsvFields.IntFieldMinus | src/water/parser/CSVParserKV.java:400-434 | "-" followed by decimal digits parses to minus their value, wrapped |
| CsvFields.FloatNeverOverflows | src/water/parser/CSVParserKV.java:519-525 | with the capacity check on the zero flush, no field writes past the digit buffer |
| CsvFields.FloatRunBounded | src/water/parser/CSVParserKV.java:442-543 | from any in-bounds state the corrected scan never overflows |
| CsvFields.IntegerRun | src/water/parser/CSVParserKV.java:446-500 | reading the integer digits records digits of the same value, with one exponent step per recorded digit |
| CsvFields.FractionRun | src/water/parser/CSVParserKV.java:501-528 | reading the fraction digits records them with trailing zeros held back |
| CsvFields.FloatDecimal | src/water/parser/CSVParserKV.java:436-546 | "d.f" yields digits whose value, times the held zeros, is that of d f, with |f| of them after the decimal point |
| CsvFields.FloatInteger | src/water/parser/CSVParserKV.java:436-546 | a decimal integer field yields its value with exponent equal to its number of digits |
| CsvFields.FloatExponent | src/water/parser/CSVParserKV.java:529-532 | after integer digits d and "e", the rest of the field is parsed as an int and added (in 32-bit arithmetic) to the exponent |d|; when it does not parse the exponent stays |d|; the field is accepted either way |
| CsvFields.FloatTooManyDigits | src/water/parser/CSVParserKV.java:493-495 | more integer digits than the buffer holds make parseFloat return false, with the buffer full |
| CsvFields.FloatOkHasDigits | src/water/parser/CSVParserKV.java:532 | from any point of the scan, an accepted field has recorded at least one digit |
| CsvFields.FloatSuccessHasDigits | src/water/parser/CSVParserKV.java:532-546 | parseFloat returns true only when at least one digit was recorded, as written and corrected |
| CsvFields.FloatNoDigitRun | src/water/parser/CSVParserKV.java:436-546 | a scan with no digit recorded, over characters none of which is a digit, ends in rejection |
| CsvFields.FloatNoDigitFails | src/water/parser/CSVParserKV.java:436-546 | a field without a digit (signs, whitespace, a point, an exponent marker) is rejected, as written and corrected |
| CsvFields.FloatLeadingZeroAsWritten | src/water/parser/CSVParserKV.java:472-475 | as written, "0102" is stored as digits 012 at exponent 3, i.e. 12 and not 102 |
| CsvFields.FloatFlushAsWritten | src/water/parser/CSVParserKV.java:519-525 | as written, "1.001" with capacity 2 writes past the buffer, and the corrected scan stops without overflowing |
| CsvParser.EndFieldF | src/water/parser/CSVParserKV.java:592-635 | endField stores the typed value of the field range in the current column, leaves other columns alone, and moves to the next field |
| CsvParser.FillF | src/water/parser/CSVParserKV.java:564-569 | FILL runs endField up to the last column and keeps the columns already parsed |
| CsvParser.EndRecordF | src/water/parser/CSVParserKV.java:556-590 | endRecord fails exactly under ERROR with too few columns; otherwise it keeps the record exactly when it is complete or the policy is FILL, and resets the column when it drops the record |
| CsvParser.StepProgress | src/water/parser/CSVParserKV.java:682-775 | each pass of the corrected loop advances the pointer, except once from ENDLINE |
| CsvParser.RunStep | src/water/parser/CSVParserKV.java:682-775 | the loop's answer is that of the pass, or of the loop after it |
| CsvParser.RunForEnds | src/water/parser/CSVParserKV.java:682-777 | the corrected loop returns within two passes per remaining byte |
| CsvParser.EndFieldTyped | src/water/parser/CSVParserKV.java:592-635 | after endField every parsed column holds a value of its type |
| CsvParser.EndRecordTyped | src/water/parser/CSVParserKV.java:556-590 | a record endRecord keeps holds a value of its type in every column |
| CsvParser.InitialTyped | src/water/parser/CSVParserKV.java:699-719 | the INITIAL state keeps every parsed column typed |
| CsvParser.AfterQuotedTyped | src/water/parser/CSVParserKV.java:732-745 | the AFTER_QUOTED state keeps every parsed column typed |
| CsvParser.NonQuotedTyped | src/water/parser/CSVParserKV.java:746-763 | the NONQUOTEDFIELD state keeps every parsed column typed |
| CsvParser.EndLineTyped | src/water/parser/CSVParserKV.java:764-768 | the corrected ENDLINE state keeps every parsed column typed |
| CsvParser.StepTyped | src/water/parser/CSVParserKV.java:697-772 | every pass keeps every parsed column typed |
| CsvParser.RunTyped | src/water/parser/CSVParserKV.java:682-777 | a record the loop finishes is complete: every column holds a value of its type |
| CsvParser.HasNextComplete | src/water/parser/CSVParserKV.java:668-778 | a record hasNext reports is complete |
| CsvParser.RunNoLineEnd | src/water/parser/CSVParserKV.java:693-694 | with no line end in the rest of the data the loop reports no record |
| CsvParser.HasNextNoLineEnd | src/water/parser/CSVParserKV.java:668-778 | a last line without a line end is never reported as a record |
| CsvParser.QuoteEscape | src/water/parser/CSVParserKV.java:720-731 | a doubled quote inside a quoted field returns the scan to QUOTED, two bytes further on |
| CsvParser.EndLineConsumesNewline | src/water/parser/CSVParserKV.java:764-768 | in ENDLINE the record ends, and the pointer moves past the character exactly when it is '\n' |
| CsvParser.FillFrom | src/water/parser/CSVParserKV.java:564-569 | filling from a column stores FILL's default in each remaining column |
| CsvParser.FillDefaults | src/water/parser/CSVParserKV.java:559-569 | under FILL a partial record is kept with its parsed columns, defaults in the rest (0 for int columns, not defaultInt), and its column count |
| CsvParser.EndLineStuckAsWritten | src/water/parser/CSVParserKV.java:764-768 | as written, a record DROP rejects in ENDLINE before a character other than '\n' leads to a state the loop never leaves |
| CsvParser.PendingForever | src/water/parser/CSVParserKV.java:682-775 | as written, from that state the loop has not returned after any number of passes |
| CsvParser.CrLfHangsAsWritten | src/water/parser/CSVParserKV.java:764-768 | as written, hasNext on "\r\n7\n" with one int column under DROP never returns |
| CsvParser.CrLfPasses | src/water/parser/CSVParserKV.java:699-768 | the corrected loop passes the blank CRLF line and starts the field "7" |
| CsvParser.CrLfField | src/water/parser/CSVParserKV.java:592-610 | the field "7" is stored as the int 7 |
| CsvParser.CrLfRecordCorrected | src/water/parser/CSVParserKV.java:668-778 | the corrected hasNext on that input reports the record [7] |
| CsvParser.Parser.constructor | src/water/parser/CSVParserKV.java:368-386 | the byte-array parser starts at pointer 0 with no record pending |
| CsvParser.Parser.FieldValue | src/water/parser/CSVParserKV.java:596-623 | the value stored for a field is the typed value of its range |
| CsvParser.Parser.EndField | src/water/parser/CSVParserKV.java:592-635 | endField changes the parser state as EndFieldF says |
| CsvParser.Parser.FillRemaining | src/water/parser/CSVParserKV.java:564-567 | the fill loop changes the state as FillF says |
| CsvParser.Parser.FillRecord | src/water/parser/CSVParserKV.java:561-569 | FILL's defaults are stored and the parsed column count is restored |
| CsvParser.Parser.EndRecord | src/water/parser/CSVParserKV.java:556-590 | endRecord changes the state and answers as EndRecordF says |
| CsvParser.Parser.EndRecordChar | src/water/parser/CSVParserKV.java:704-706 | a '\n' ends the record and the pointer moves past it |
| CsvParser.Parser.InitialChar | src/water/parser/CSVParserKV.java:699-719 | the INITIAL state's pass behaves as the pure step |
| CsvParser.Parser.AfterQuotedChar | src/water/parser/CSVParserKV.java:732-745 | the AFTER_QUOTED state's pass behaves as the pure step |
| CsvParser.Parser.NonQuotedChar | src/water/parser/CSVParserKV.java:746-763 | the NONQUOTEDFIELD state's pass behaves as the pure step |
| CsvParser.Parser.EndLineChar | src/water/parser/CSVParserKV.java:764-768 | the corrected ENDLINE pass behaves as the pure step |
| CsvParser.Parser.StepChar | src/water/parser/CSVParserKV.java:695-775 | one pass of the loop behaves as Step on the parser's state |
| CsvParser.Parser.HasNext | src/water/parser/CSVParserKV.java:668-778 | hasNext answers true without work while a record is pending, and otherwise answers and moves as the corrected loop does |
| CsvParser.Parser.Next | src/water/parser/CSVParserKV.java:780-786 | next hands out the record hasNext found and clears the pending and fresh flags, or fails with NoSuchElementException |
| MemoryManager.LimitsOf | src/water/MemoryManager.java:212-219 | the limits are ordered CACHE_LO <= CACHE_HI <= MEM_HI <= MEM_CRITICAL <= MEM_MAX, with MEM_CRITICAL at least 3/4 of the heap and CACHE_HI at most half |
| MemoryManager.Clean | src/water/MemoryManager.java:189-197 | the amount to free is never negative, is 0 up to MEM_HI, and above MEM_CRITICAL covers the excess plus more than the slack |
| MemoryManager.CleanMonotone | src/water/MemoryManager.java:189-197 | a higher heap usage never asks for less to be freed |
| MemoryManager.ResumeNeedsExcessFreed | src/water/MemoryManager.java:117 | after a critical notification, allocations resume only once more than the excess above MEM_CRITICAL is freed |
| MemoryManager.CacheExcess | src/water/MemoryManager.java:83-93 | setCacheSz asks to free something exactly when the cache is above CACHE_HI, and at most half the excess |
| MemoryManager.Lengthen | src/water/MemoryManager.java:101-111 | lengthening never lowers _maxTime and, when it was below _previousT, does not overshoot it |
| MemoryManager.Shorten | src/water/MemoryManager.java:135-145 | shortening never raises _maxTime and, when it was above _previousT, does not undershoot it |
| MemoryManager.Observe | src/water/MemoryManager.java:97-146 | one value keeps the estimate sound, resets the opposite counter, moves _maxTime only in the value's direction, and resets both counters when it moves |
| MemoryManager.ObserveAllSound | src/water/MemoryManager.java:97-146 | any run of values keeps the estimate sound |
| MemoryManager.OldRun | src/water/MemoryManager.java:98-111 | fewer than ten old values in a row only count |
| MemoryManager.YoungRun | src/water/MemoryManager.java:132-145 | fewer than ten young values in a row only count |
| MemoryManager.ObserveAllAppend | src/water/MemoryManager.java:97-146 | observing two runs in turn is observing their concatenation |
| MemoryManager.TenOld | src/water/MemoryManager.java:101-111 | ten old values in a row lengthen _maxTime once and reset both counters |
| MemoryManager.TenYoung | src/water/MemoryManager.java:135-145 | ten young values in a row shorten _maxTime once and reset both counters |
| MemoryManager.ZeroEstimateStays | src/water/MemoryManager.java:101-145 | once _maxTime and _previousT are both 0, no run of values moves them again |
| MemoryManager.Value.constructor | src/water/MemoryManager.java:97-113 | a value has its access time and optional memory |
| MemoryManager.Value.FreeMem | src/water/MemoryManager.java:115 | freeing drops the value's memory and keeps its access time |
| MemoryManager.Manager.constructor | src/water/MemoryManager.java:40-70 | the manager starts with the limits of MEM_MAX, an empty cache, nothing to free, allocations allowed and the initial estimate |
| MemoryManager.Manager.SetCacheSz | src/water/MemoryManager.java:83-93 | setCacheSz records the cache size and raises mem2Free to half the excess above CACHE_HI, never lowering it |
| MemoryManager.Manager.RemoveValue | src/water/MemoryManager.java:96-148 | a value is removed exactly when it is old, memory is wanted and the cache is above CACHE_LO; its memory is freed and counted, and allocations resume once what is left to free is below the slack |
| MemoryManager.Manager.Track | src/water/MemoryManager.java:97-146 | the age estimate moves as Observe says and nothing else changes |
| MemoryManager.Manager.HandleNotification | src/water/MemoryManager.java:184-207 | a threshold notification raises mem2Free to what the heap usage asks for and blocks allocations above MEM_CRITICAL; other notifications change nothing |
| PersistS3.IndexOf | src/main/java/water/store/s3/PersistS3.java:178 | indexOf finds the first occurrence of the character, or none exactly when it is absent |
| PersistS3.DecodeKey | src/main/java/water/store/s3/PersistS3.java:174-182 | decoding succeeds exactly on "s3://" names with a '/' after the prefix, and the bucket has no '/' |
| PersistS3.IndexOfAfter | src/main/java/water/store/s3/PersistS3.java:178 | the first '/' of bucket/key, for a bucket without '/', follows the bucket |
| PersistS3.DecodeEncode | src/main/java/water/store/s3/PersistS3.java:161-172 | decoding an encoded bucket without '/' and a key gives them back |
| PersistS3.EncodeDecode | src/main/java/water/store/s3/PersistS3.java:161-182 | encoding what a key decodes to gives the key back |
| PersistS3.SlashedBucketSplitsEarly | src/main/java/water/store/s3/PersistS3.java:161-182 | a bucket name holding '/' does not survive the round trip: the split happens at its first '/' |
| PersistS3.DecodeGuardAsWrittenPassesBareBucket | src/main/java/water/store/s3/PersistS3.java:176 | the assertion as written accepts "s3://bucket", which has no '/' after the prefix and cannot be split |
| PersistS3.LazyChunkSize | src/main/java/water/store/s3/PersistS3.java:115-133 | a chunk is absent exactly when less than one chunk remains past offset 0; otherwise it is a full chunk or the whole remainder, under two chunks |
| PersistS3.ChunkCount | src/main/java/water/store/s3/PersistS3.java:127-129 | an object has at least one chunk |
| PersistS3.FullChunks | src/main/java/water/store/s3/PersistS3.java:129 | while two chunks remain, every chunk is full |
| PersistS3.ChunksTile | src/main/java/water/store/s3/PersistS3.java:115-133 | the chunks of an object add up exactly to its size less the header |
| PersistS3.LastChunk | src/main/java/water/store/s3/PersistS3.java:127-129 | the last chunk takes the whole remainder |
| PersistS3.ChunkExists | src/main/java/water/store/s3/PersistS3.java:127-129 | each of the first ChunkCount chunks exists |
| PersistS3.NoChunkAfter | src/main/java/water/store/s3/PersistS3.java:127-128 | no chunk exists past the first ChunkCount |
| PersistS3.ByteRange | src/main/java/water/store/s3/PersistS3.java:188 | the inclusive range starts at the offset and spans exactly length bytes |
| PersistS3.ChunkReadInside | src/main/java/water/store/s3/PersistS3.java:115-133 | the range read for a chunk lies inside the object, past its header |
| PersistS3.LoadKind | src/main/java/water/store/s3/PersistS3.java:47-68 | ".hex" objects read a header of min(CHUNK_SZ, size), objects of at least two chunks become large arrays, and the rest plain values |
| PersistS3.PlainIsOneChunk | src/main/java/water/store/s3/PersistS3.java:62-64 | an object kept as a plain value is one chunk covering all of it |
| PersistHdfs.Initial | src/water/hdfs/PersistHdfs.java:28-32 | a new value is on disk, with goal and done set and type HDFS |
| PersistHdfs.StoreInfo | src/water/hdfs/PersistHdfs.java:148-165 | storing sets the goal, sets done exactly when the output stream was created and closed, even if the write itself failed, and keeps the type bits |
| PersistHdfs.DeleteInfo | src/water/hdfs/PersistHdfs.java:176-185 | deleting clears the goal, sets done and keeps the type bits |
| PersistHdfs.DeleteUndoesStore | src/water/hdfs/PersistHdfs.java:142-186 | from the not-stored state, a completed store followed by a delete gives back the byte the store started from |
| PersistHdfs.StoreDeleteAlternate | src/water/hdfs/PersistHdfs.java:142-186 | a completed store leaves the state file_delete asserts (goal and done set), and the delete the state file_store asserts (goal clear, done set) |
| PersistHdfs.Value.constructor | src/water/hdfs/PersistHdfs.java:144 | a value has its home flag and persistence byte |
| PersistHdfs.Value.SetInfo | src/water/hdfs/PersistHdfs.java:148-151 | setting bits ors them into the persistence byte |
| PersistHdfs.Value.ClrInfo | src/water/hdfs/PersistHdfs.java:176-185 | clearing bits masks them out of the persistence byte |
| PersistHdfs.FileStore | src/water/hdfs/PersistHdfs.java:142-169 | only the home node updates the byte, as StoreInfo says |
| PersistHdfs.FileDelete | src/water/hdfs/PersistHdfs.java:171-186 | only the home node updates the byte, as DeleteInfo says |
| PersistHdfs.Escape | src/water/hdfs/PersistHdfs.java:116-118 | the escaped name has no ':' and is unchanged when there was none |
| PersistHdfs.EscapeCollides | src/water/hdfs/PersistHdfs.java:116-118 | the keys "a:" and "a%37" map to the same path |
| PersistHdfs.DecodeFile | src/water/hdfs/PersistHdfs.java:102-111 | decodeFile names the key prefix-without-its-slash, a slash, then the file name (just the name for an empty prefix), and accepts exactly when that key has at most 512 characters |
| PersistHdfs.FolderPrefixJoin | src/water/hdfs/PersistHdfs.java:71-95 | the folder prefix is a slash followed by the folder names joined by slashes |
| PersistHdfs.DecodeFileRelative | src/water/hdfs/PersistHdfs.java:71-111 | a loaded file's key is its path relative to the root |
| PersistHdfs.LoadedKeyMapsBack | src/water/hdfs/PersistHdfs.java:71-118 | the path of a loaded key without ':' is the file it was loaded from |
| PersistHdfs.JoinNoColon | src/water/hdfs/PersistHdfs.java:116-118 | names without ':' join into a path without ':' |

## Left out

- Data.unmap, Data.toString, Data.head and the column statistics (colMin, colMax, colTot and NaN on subsets): they print or describe, and no split or filter reads them.
- RFData.Statistic.Add: the histogram update of BaseStatistic.add is not part of this model. The model records which adapter rows each statistic received.
- RFData.Data.SampleWithReplacement: the seeded java.util.Random is a parameter, the sequence of positions it draws.
- RFData.Data.SampleWithReplacement: a negative bag percentage is excluded by a precondition. Java truncates toward zero, so a percentage above -1/rows gives an empty bag and a lower one throws NegativeArraySizeException.
- GiniStatistic.ColumnSplit, GiniStatistic.ColumnExclusion, GiniStatistic.SplitSweep and GiniStatistic.ExclusionSweep accept a weight of 0 only when every prefix of the bins holds 0 rows, as class counts of an empty node do. With negative bins Java would divide by a zero weight and compare IEEE infinities; those are not modelled.
- CsvParser.Parser.Next: returns the record as a value. Java's next returns the one reused _csvRecord array, which the next hasNext overwrites in place; that aliasing is not modelled.
- DecisionTree.Node.Walk, DecisionTree.Node.ClassifyRecursive and DecisionTree.DecisionTree.Classify require the descent to be possible (Walkable, Classifiable), so three Java exceptions become preconditions: a sentinel met below the starting node (ClassCastException), a classifier answer that is not an index of the node's slots (ArrayIndexOutOfBoundsException), and a split column outside the row (ArrayIndexOutOfBoundsException).
- RFData.Data.GetRow requires 0 <= i < rows(), so the out-of-range failure of permute(i) in getRow is a precondition.
- Java `assert` statements are modelled as enabled: a failing assertion becomes an Err result (PersistS3.DecodeKey, PersistHdfs.DecodeFile) or a precondition (PersistHdfs.FileStore, PersistHdfs.FileDelete). With assertions disabled, the JVM default, decodeKeyImpl strips five characters from any name, decodeFile builds the key regardless of length, and file_store and file_delete run from any state.
- The DataAdapter is an immutable value of accessors (row and column counts, binned values, column classes, class of a row).
- Row.getD, Row.numClasses and Data.random: they are plain adapter lookups.
- GiniStatistic.MaxIndex: Utils.maxIndex is not part of this model. Ties resolve to the first index.
- GiniStatistic.ColumnExclusion: modelled as written, with the cumulative left weight (see Findings).
- GiniStatistic.SplitFitnessBounds, SplitCandidateAtMostOne, ExclusionCandidateAtMostOne, SplitImpossibleWithin and ExclusionImpossibleWithin take weaker hypotheses than non-negative bins. CutSides and NonNegWeightsWithin derive those hypotheses from non-negative bins.
- Floating point: Gini impurities are real numbers, and parseFloat's result is its digit buffer and exponent rather than FloatingDecimal's conversion to float or double.
- DecisionTree.numClasses throws "NOT IMPLEMENTED" and is left out.
- DecisionTree.Node.SetSubtree supports bottom-up construction only. A node attached to a parent is not changed again, because its parent's footprint would go stale.
- DecisionTree.DecisionTree.Classify: the printing of the tree to stdout after a -1 is dropped. The tree is rendered but not printed.
- The classifiers Numeric.SplitClassifier and the others are not part of this model. A numeric split is a column and a value, and any other classifier is a function to a branch.
- The static nodeCount is a NodeCounter object passed to the constructors.
- Serialisation identifiers: they have no behaviour.
- CSVParserKV's multi-chunk mode is left out: the Key constructor, nextData, the 1024-byte refetch and _skipRecord. The model covers the byte-array constructor, where _skipRecord stays false.
- CSVString and its comparisons are left out. A string cell is its offset and length.
- Filling records by reflection (Field.setInt, Array.setFloat, and so on) and initialize(columns) are left out. A record is a sequence of typed cells.
- Column names, skipFirstRecord and getColumnNames are left out. The column types are a parameter.
- CsvParser.EndRecordF: the "partial record with n columns" Error message is a fixed string.
- CsvParser.RunFor: the fuel is a bound on passes. It exists only to state the as-written loop, which need not end.
- MemoryManager.allocateMemory, malloc, the blocking wait, notifyAll, synchronized and the memory MXBean registration are left out. Threads and the JVM are outside the model.
- MemoryManager: MEM_MAX and the heap usage of a notification are parameters. Runtime.maxMemory and the memory bean are outside the model.
- MemoryManager: the shifts are integer division of non-negative values. 64-bit wrap-around is not modelled.
- MemoryManager.Value.FreeMem: Value.freeMem and the persisting of values are not part of this model (_doPersist).
- MemoryManager: logging to stdout is dropped.
- PersistS3: the AWS client and fileLoad, fileStore and the object listing are left out. They are network I/O.
- PersistS3: ValueArray.CHUNK_SZ, getChunkOffset and getArrayKey are not part of this model. The chunk size, offset and header length are parameters.
- PersistS3: Key.make's byte encoding of names is left out. A key is its name.
- PersistHdfs: the Hadoop FileSystem, file_load, the static initialiser and the recursive listing's I/O are left out. The listing is modelled by the folder names it passes down.
- PersistHdfs.PathForKey: Path normalisation is left out. A path is the root, a slash, then the escaped key.
- The Python tests, RequestBuilders, RTSerGenerator and the test adapters are not part of this model.

## Findings

| source | as written | input that shows it | evidently intended | confidence | as-written member | corrected member |
|---|---|---|---|---|---|---|
| src/hexlytics/rf/GiniStatistic.java:78-92 | columnExclusion's leftWeight accumulates over bins 0..i while leftDist holds only bin i | bins [[1,0],[1,0],[0,2]], bin 1: left weight 2 for one row, right-side impurity negative, score 0.25 | the left weight is bin i's own row count, so every score is a weighted impurity in [0, 1] (1/3 here) | not executed | GiniStatistic.ExclusionWeightMismatch | GiniStatistic.IsolatedFitnessBounds |
| src/water/parser/CSVParserKV.java:764-768 | in ENDLINE, a record DROP rejects leaves the state at ENDLINE, and before a character other than '\n' the pointer does not move | bytes "\r\n7\n", one int column, DROP_PARTIAL_RECORDS: hasNext never returns | a rejected record restarts the scan at the pointer in INITIAL, so the next record is read ([7]) | not executed | CsvParser.CrLfHangsAsWritten | CsvParser.CrLfRecordCorrected |
| src/water/parser/CSVParserKV.java:472-475 | after a leading '0' the first nonzero digit falls through to the integer part but the state stays at leading zeros, so every later '0' is dropped | "0102": digits "012" at exponent 3, i.e. 12 | the state moves to the integer part at the first nonzero digit, so an integer field is read as its value | not executed | CsvFields.FloatLeadingZeroAsWritten | CsvFields.FloatInteger |
| src/water/parser/CSVParserKV.java:519-525 | held-back fraction zeros are flushed into the digit buffer without the capacity check that single digits get | "1.001" with a two-digit buffer: the flush writes past the buffer | the flush checks the capacity, so no field writes past the buffer | not executed | CsvFields.FloatFlushAsWritten | CsvFields.FloatNeverOverflows |
| src/main/java/water/store/s3/PersistS3.java:176 | the assertion checks for a '/' anywhere in the name, including the prefix "s3://" | "s3://bucket": the assertion passes and substring(0, -1) throws | a name without '/' after the prefix is rejected as not an S3 key | not executed | PersistS3.DecodeGuardAsWrittenPassesBareBucket | PersistS3.DecodeKey |
