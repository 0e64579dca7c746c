# What zpq's Python and Java tools promise, proved in Dafny

zpq is a query engine for Parquet files. Around the engine stand tools written in Python and Java. This project models five
of them and proves what they promise.

* **Thrift, footers and pages.** `tools/datagen/parquet.py` reads and writes the Thrift compact protocol (Apache Thrift
  compact protocol specification, sections "Integer encoding", "List and Set" and "Struct encoding"), rewrites Parquet
  footers, and moves every page of a file under a new header. Three other readers of the same protocol, two footer walkers
  and a page index checker (apache/parquet-format, PageIndex.md, "Technical Approach") live beside it.
  Files: `Bits`, `StableSort`, `Thrift*`, `Footer`, `PageRelocation`, `FileRelocation`, `RelocatedMeta`, `RelocatedFile`,
  `FooterWalk`, `FooterLookup`, `PageIndexCheck`, `PageIndexUse`, `WrittenPages`.
* **The distributed aggregate.** `tools/serverless/fanout.py` cuts row groups into runs, lets workers answer partially, and
  merges, orders and limits their answers. Its Spark twin cuts the same row groups into slices.
  Files: `RowGroupSplit`, `Aggregates`, `Merge`, `OrderBy`, `FanoutAnswer`, `Coordinator`,
  `CoordinatorAnswer`.
* **The life of a native context.** `Zpq`, `ArrowReader` and `ZpqNative` share one context through a count of calls, a
  closing flag and a condition variable, under the contract of `include/zpq.h`.
  Files: `ContextLifetime`, `ContextTrace`, `ContextClosing`, `ContextMonitor`, `ReaderClosing`.
* **Spark filters and requests.** Filters are printed as text, joined, quoted into SQL, and quoted again into JSON that the
  connector's own parser can read (RFC 8259, section 7).
  Files: `SqlText`, `Dates`, `Utf8`, `FilterExpr`, `FilterParser`, `SparkFilter`, `FilterPushdown`, `Json`,
  `JsonPrint`, `ScanSql`, `ScanRequest`.
* **Bench rounds, the ship bar and the quick check.** Disturbed cases run again and are then quarantined; a scorer applies
  the release rule; a quick A/B check compares first answers and then times both builds in pairs.
  Files: `RoundMachine`, `ShipBar`, `QuickCheck`.

Code that only computes is a function; code that steps through state is a method or a class, proved against such functions.
Readers are functions of the bytes not yet read, and the class `ThriftReader.Reader` moves a position over them. The two
protocols are machines over their atomic steps, and what is proved of them holds for any number of actors in any order.

Nine places where the code does not do what it seems to promise are stated as such, each with the exact condition:

* The page index checker passes chunks whose pages overlap, because nothing keeps a header from giving a negative size
  (`PageIndexCheck.BackwardChunkPasses`). The pages of a chunk that passes tile it exactly when every header met on the walk
  gives a positive page size (`PageIndexCheck.LaidOutTiles`).
* For the same reason its walk may never end (`PageIndexCheck.StandingWalkNeverEnds`). It never ends exactly when it has not
  ended after one page more than there are positions to read a header at (`PageIndexCheck.NeverEndsIff`), which is exactly
  when it comes to some position twice (`PageIndexCheck.NeverEndsIffMeetsAgain`). Compressed sizes that are not negative are
  enough for it to end and to tile.
* A Spark filter on bytes that are not valid UTF-8 is pushed down as a comparison with other text, with nothing left over, so
  that rows are lost (`FilterPushdown.LostRow`). A test with literals keeps its meaning on every row exactly when its byte
  literals are valid UTF-8 (`FilterPushdown.FilterMeaningIff`).
* `_zigzag` is right exactly for 64-bit integers (`Bits.ZigzagRoundTripIffInt64`).
* A rewritten file reopens exactly when it starts with the magic, which the edit of the body can take away
  (`Footer.ReopenAfterClose`).
* The footer walker's `skip` stops short on a list of booleans exactly when the list is not empty
  (`ThriftGrammar.SkipOfBoolList`); inside a struct no condition on the list alone decides whether it recovers
  (`ThriftGrammar.SkipInsideStruct`).
* An interrupted Java `close` keeps the header's contract exactly when no call is inside the library or about to enter it and
  no stream is open (`ContextClosing.InterruptSafeIff`).
* Several closes of one Python or Java reader release its stream twice and drop the in-flight count twice exactly when one of
  them tests whether the reader is open between the test and the update of another (`ReaderClosing.ClosedOnceIff`); the
  header asks its callers to keep them apart.
* The Spark slices cover every row group when the 32-bit product of workers and row groups does not overflow; when it does,
  the last row group is in no slice (`RowGroupSplit.SplitRowGroups`).

`dafny verify dfyconfig.toml` checks everything.

## Model

| member | source | states |
|---|---|---|
| Bits.ZigzagRoundTripIffInt64 | tools/datagen/parquet.py:104-105 | reading back a zigzag integer gives it exactly when it fits 64 bits, with `>> 63` and `^` on unbounded integers |
| Bits.UnzigzagInjective | tools/datagen/parquet.py:55-57 | two encodings of the same integer are the same |
| Bits.OrAbove | tools/datagen/parquet.py:46-53 | OR-ing a shifted group of seven bits above what was read is adding it |
| ThriftReader.Reader.Byte | tools/datagen/parquet.py:42-44 | one byte, or an index error at the end |
| ThriftReader.Reader.Varint | tools/datagen/parquet.py:46-53 | the loop over groups reads the varint of the specification and leaves the position behind it |
| ThriftReader.Reader.ReadAny | tools/datagen/parquet.py:59-91 | the reader object, at any position of any bytes, returns the value the grammar gives, raises where it fails, and stops where the value ends |
| ThriftReader.Reader.Fields | tools/datagen/parquet.py:81-90 | the struct loop gathers the fields in wire order with their ids decoded from deltas |
| ThriftReader.WriteVarintLoop | tools/datagen/parquet.py:94-101 | the writing loop gives the varint's bytes |
| ThriftWire.VarintBytes | tools/datagen/parquet.py:94-101 | the bytes written have the number's digits to the base 128, lowest first, and the high bit in all but the last |
| ThriftWire.OneField | tools/datagen/parquet.py:117-131 | a struct of one field with an id up to 15 is the id and the type in one byte, the value, and a zero; a boolean is its type |
| ThriftWire.ValueBytes | tools/datagen/parquet.py:108-122 | the bytes of each kind of value, with the types' numbers of the specification |
| ThriftRoundTrip.VarintRoundTrip | tools/datagen/parquet.py:46-101 | a written varint is read back and is self-delimiting, whatever follows |
| ThriftRoundTrip.SortCommutesWithCanon | tools/datagen/parquet.py:125-126 | sorting fields by id and normalising boolean tags commute, repeated ids kept in order |
| ThriftRoundTrip.RoundTrip | tools/datagen/parquet.py:59-132 | for every supported nested value and any trailing bytes, reading what was written consumes exactly that and returns the value with fields stably sorted and boolean tags normalised |
| ThriftCanonical.Reverse | tools/datagen/contracts.py:490-494 | on canonical bytes, writing what was read gives the same bytes again |
| ThriftImage.WrittenIsCanonical | tools/datagen/parquet.py:108-132 | everything the writer writes is canonical |
| ThriftImage.CanonicalIsTheWritersImage | tools/datagen/parquet.py:59-132 | the canonical bytes are exactly the writer's output |
| ThriftImage.CanonWritesTheSame | tools/datagen/parquet.py:123-131 | a value and its normalised form are written the same |
| Thrift.GetSet | tools/datagen/parquet.py:135-136 | assigning to the first field of an id is seen by looking up that id and by no other lookup |
| StableSort.SortIsStable | tools/datagen/parquet.py:125 | the sort is sorted and keeps equivalent elements in order, for every total preorder |
| StableSort.StableSortUnique | tools/datagen/parquet.py:125 | only one sequence is a stable sort of another |
| StableSort.SortAfterSort | tools/serverless/fanout.py:131-140 | a stable sort by one order after a stable sort by another is one stable sort by both |
| ThriftGrammar.CompactAgrees | tools/check/page_index.py:23-90 | the index checker's reader finds the same value as the first reader and stops at the same byte |
| ThriftGrammar.SkipAgrees | tools/check/readback.py:220-246 | skipping a value without lists of booleans stops where reading it stops |
| ThriftGrammar.SkipOfBoolList | tools/check/readback.py:228-231 | on a list of booleans skipping agrees exactly when the list is empty |
| ThriftGrammar.SkipInsideStruct | tools/check/readback.py:220-246 | a struct with a list of one boolean that skipping fails on, and one with two that it passes by chance |
| ThriftGrammar.ScanAgrees | tools/datagen/corrupt.py:24-59 | the corruption tool's field scan finds the same integers, booleans and structs and stops at the same byte |
| ThriftSpans.SpansScan | tools/datagen/corrupt.py:44-48 | recording the bytes of every integer changes nothing about where the scan ends or fails |
| ThriftSpans.WriteThrough | tools/datagen/corrupt.py:126-130 | writing another integer of the same width over a recorded one changes that integer alone: the struct ends where it did and every other integer keeps its place and value |
| ThriftGrammar.LookupsAgree | tools/check/page_index.py:81-90 | with distinct ids, a lookup in the dictionary form is a lookup in the field list |
| FooterWalk.WalkAgrees | tools/check/readback.py:209-218 | a walk that handles each field as the parse would is the fold of the parsed fields and stops where parsing stops |
| FooterWalk.FooterAgrees | tools/check/readback.py:260-294 | the nested walk over row groups, columns and metadata gives the parsed footer's contents, for any handling of the metadata |
| FooterWalk.FooterStatsAgree | tools/check/readback.py:298-333 | the statistics walker equals the projection of the full parse |
| FooterWalk.FooterFiltersAgree | tools/check/readback.py:252-295 | the Bloom filter walker equals the projection of the full parse |
| FooterLookup.StatsOfColumn | tools/check/readback.py:298-333 | for one column of one row group: a minimum and a maximum exactly when its statistics have fields 6 and 5, exactness as fields 8 and 7 say, unknown without them |
| FooterLookup.FilterOfColumn | tools/check/readback.py:252-295 | for one column of one row group: its type, path, filter offset and length are fields 1, 3, 14 and 15 of its metadata, absent without them |
| Footer.RewriteFooter | tools/datagen/parquet.py:139-150 | the rewrite is: open, edit metadata and body, close; with each way it can fail |
| Footer.FileEnds | tools/datagen/parquet.py:149-150 | a file written ends with the footer, its length in four bytes with the lowest first, and PAR1 |
| Footer.ReopenAfterClose | tools/datagen/parquet.py:143-150 | re-reading the rewritten file yields the edited body and the canonical edited metadata, exactly when the file starts with the magic |
| Footer.ShortBodyReopens | tools/datagen/parquet.py:143-150 | a body of three bytes that the footer's first byte completes to the magic |
| Footer.CloseFailsOnlyOnLength | tools/datagen/parquet.py:149-150 | supported metadata fails to be written only when the footer is too long for its length field |
| Footer.IdentityRewrite | tools/datagen/parquet.py:139-150 | a rewrite without an edit keeps the body, and the metadata up to field order |
| Footer.CanonicalFooterUnchanged | tools/datagen/parquet.py:139-150 | a file with a canonical footer comes back byte for byte |
| Footer.IdentityRewriteSettles | tools/datagen/parquet.py:139-150 | one rewrite settles a file: further ones change nothing |
| PageRelocation.PagesOfRewritten | tools/datagen/parquet.py:380-396 | walking the moved bytes gives the same pages in the same order, bodies unchanged, each header the old one with only the statistics of its data header replaced |
| PageRelocation.PoisonReplaces | tools/datagen/parquet.py:387-392 | the edited header is the old one with one thing replaced, the statistics inside its data header (field 5, else 8), and is the old one when none are given |
| PageRelocation.PoisonableIff | tools/datagen/parquet.py:387-392 | statistics can be replaced in every header but one whose data header is no struct or has no statistics, where the source stops |
| PageRelocation.MovedHeaderFields | tools/datagen/parquet.py:387-392 | looked up by id in the header written: every field but the data header, and every field of the data header but the statistics, is the original's in canonical form; the statistics are those given |
| PageRelocation.NewPagesMoved | tools/datagen/parquet.py:387-396 | so it is for every page moved, with its body unchanged and its header as long as what is written of it |
| WrittenPages.WrittenPageMoves | tools/datagen/parquet.py:380-396 | the bytes of any header the writer can write, and after them as many bytes as its field 3 says, are taken for one page with that header and that body |
| FileRelocation.ChunkIsFound | tools/datagen/parquet.py:372-375 | a chunk is found from its data page offset, or from its dictionary page offset when that is lower, over the length its metadata gives |
| PageRelocation.RewrittenLength | tools/datagen/parquet.py:393-399 | the moved bytes are longer by exactly the growth of the headers |
| PageRelocation.MovedNamesSamePage | tools/datagen/parquet.py:384-386 | an offset that named page k's old start names page k's new start |
| PageRelocation.MovedOnlyPages | tools/datagen/parquet.py:384-386 | only an offset that named a page moves |
| PageRelocation.ReadPagesOk | tools/datagen/parquet.py:380-397 | pages read to the end of a chunk can be moved, and fill it |
| FileRelocation.RelocatePages | tools/datagen/parquet.py:380-397 | the page loop appends the moved pages, moves the offsets, and reports the growth |
| FileRelocation.MoveOneChunk | tools/datagen/parquet.py:372-400 | a chunk after the move: offsets follow their pages, sizes follow the bytes, all else is kept |
| FileRelocation.RelocateChunk | tools/datagen/parquet.py:371-400 | the method's chunk is that chunk, and its bytes are appended to the body |
| FileRelocation.RelocateGroup | tools/datagen/parquet.py:369-402 | every chunk of the row group has moved, in order, and the group's total is the sum of its chunks |
| FileRelocation.RelocateFile | tools/datagen/parquet.py:365-402 | every row group has moved into the new body, which starts with the magic |
| RelocatedMeta.MovedMetadataOk | tools/datagen/parquet.py:365-402 | the metadata after the move can be written: all offsets and sizes stay within 64 bits, for files and sizes below 2^62 |
| RelocatedFile.RelocateAndRewrite | tools/datagen/parquet.py:139-402 | open, move, close and open again: only a footer too long stops it, and every chunk is at its place in the metadata with its pages in order, bodies unchanged and headers changed in the statistics of their data header alone, each offset naming the page it named, the sizes those of the moved pages, and every other field as it was |
| RelocatedFile.PagesSurviveTheRewrite | tools/datagen/parquet.py:139-402 | after the footer is written in canonical order, each chunk found in the file still has its pages in order, bodies unchanged and headers changed in their statistics alone, with offsets and sizes that follow them |
| PageIndexCheck.Walk | tools/check/page_index.py:148-157 | the walk as it is made, negative sizes included: it gives the pages it finished over, and tells a walk that never ends, which that many steps decide |
| PageIndexCheck.OneFinish | tools/check/page_index.py:148-157 | a finished walk is the only one |
| PageIndexCheck.ExactWalkTiles | tools/check/page_index.py:148-159 | a walk that ends at the chunk's end tiles it exactly when every header it met gives a positive size; otherwise nothing tiles it |
| PageIndexCheck.NeverEndsIff | tools/check/page_index.py:148-157 | the walk never ends exactly when it has not ended after one page more than there are positions: so many steps decide it |
| PageIndexCheck.NeverEndsIffMeetsAgain | tools/check/page_index.py:148-157 | and exactly when it comes to some position twice |
| PageIndexCheck.NonNegativeEnds | tools/check/page_index.py:148-157 | over compressed sizes that are not negative the walk ends |
| PageIndexCheck.NonNegativeTiles | tools/check/page_index.py:148-159 | over compressed sizes that are not negative, a walk that ends at the chunk's end tiles it |
| PageIndexCheck.BackwardChunkPasses | tools/check/page_index.py:148-171 | a chunk of 27 bytes that passes, with one page inside another, and that nothing tiles |
| PageIndexCheck.StandingWalkNeverEnds | tools/check/page_index.py:148-157 | a header over which the walk never ends |
| PageIndexCheck.TilesPrefix | tools/check/page_index.py:148-159 | two tilings from the same place agree page by page as far as the shorter goes |
| PageIndexCheck.OnePageEachByte | tools/check/page_index.py:148-161 | every byte of a tiled chunk lies in exactly one page |
| PageIndexCheck.CheckLayout | tools/check/page_index.py:148-171 | accepts exactly the chunks whose walk ends at the last byte, with the right number of values, dictionary flag and first data page |
| PageIndexCheck.LaidOutTiles | tools/check/page_index.py:148-171 | a chunk that passes is tiled by its pages exactly when every header met gives a positive size |
| PageIndexCheck.CheckOffsetIndex | tools/check/page_index.py:178-192 | accepts exactly the offset index whose entry i holds page i's offset, its size and the exact number of rows before it, and whose length is as said |
| PageIndexCheck.OrderedGrows | tools/check/page_index.py:258-261 | a page is in order with all pages before it that have values exactly when it is with the last of them |
| PageIndexCheck.CheckColumnIndex | tools/check/page_index.py:193-265 | accepts exactly the column index with each page's null flag, null count and bounds right and its declared order holding between every two pages with values, not only neighbours |
| PageIndexCheck.CheckChunk | tools/check/page_index.py:144-265 | a chunk is accepted exactly when it is laid out as said and the indexes it has, or must have, are right; and it gets no answer exactly when its walk has not ended after one page more than there are positions |
| WrittenPages.WrittenPage | tools/check/page_index.py:151-157 | where a header stands that the writer wrote, the checker finds a page of the kind in its field 1, of the header's length and field 3 together, with the values that field 1 of its V1 (5), V2 (8) or dictionary (7) header says, the first of these that says anything, or with none |
| PageIndexUse.FindRow | tools/check/page_index.py:178-192 | in a chunk that passes, exactly one entry of the offset index covers a row, and at its offset stands a data page of its size that has the rows up to the next entry's |
| PageIndexUse.SkipIsSound | tools/check/page_index.py:193-257 | in a chunk that passes, a page has no value outside the bounds its column index gives and is flagged exactly when it has only NULLs, so that it may be skipped; bounds not truncated are values of the page |
| PageIndexUse.DeclaredOrder | tools/check/page_index.py:258-265 | order 1 or 2 means that the bounds of any two pages with values are in that order, by value and by first difference |
| RowGroupSplit.Split | tools/serverless/fanout.py:64-78 | run k reads exactly the row groups between the k-th and the next cut, one slice an input |
| RowGroupSplit.Compress | tools/serverless/fanout.py:71-77 | a run of row groups becomes slices that read exactly it, with one slice an input |
| RowGroupSplit.SplitReadsEverything | tools/serverless/fanout.py:64-78 | the runs together read every row group of every input once, in order |
| RowGroupSplit.SplitIsEven | tools/serverless/fanout.py:69-72 | no run is empty and their sizes differ by at most one |
| RowGroupSplit.SplitUnique | integrations/spark/src/main/java/dev/zpq/spark/ZpqPaths.java:136-175 | the cuts leave no choice, so the Python and the Java split are the same runs |
| RowGroupSplit.SplitRowGroups | integrations/spark/src/main/java/dev/zpq/spark/ZpqPaths.java:136-175 | the flat slices are the same split, at most workers plus non-empty files minus one of them, unless the 32-bit product overflows, when the last row group is in none |
| Aggregates.ExtremeIsExtreme | tools/serverless/fanout.py:99-101 | MIN and MAX of a column are elements of it that none beats, NULL only when all are |
| Aggregates.MinAndMax | tools/serverless/fanout.py:101 | MIN is an element than which no number is smaller and no text earlier by its first differing character, MAX one than which none is greater or later |
| Aggregates.ValuesAre | tools/serverless/fanout.py:91-113 | COUNT is the number of values, SUM and AVG their sum and its quotient by that number, NULL without values, MIN and MAX the least and the greatest |
| Aggregates.FoldOfStates | tools/serverless/fanout.py:91-103 | folding the state of one part into the state of another, or into nothing, is the state of both parts' rows |
| Aggregates.FoldBranch | tools/serverless/fanout.py:93-103 | the branches with their lookups compute that fold |
| Aggregates.Fold | tools/serverless/fanout.py:91-103 | after the loop the accumulator stands for the columns of all rows folded |
| Aggregates.FinishedValue | tools/serverless/fanout.py:106-113 | finishing a state gives the aggregate of the column, AVG as sum over count or NULL |
| Merge.DistinctRight | tools/serverless/fanout.py:123-127 | keeping only first appearances in a later part loses no group and no order |
| Merge.MergeOne | tools/serverless/fanout.py:118-122 | without groups, the merged answer is one scan's over all rows, workers without rows included |
| Merge.FoldPart | tools/serverless/fanout.py:125-127 | a group row makes its group when new and is folded into it otherwise, other groups untouched |
| Merge.MergeGroups | tools/serverless/fanout.py:123-128 | the merged groups, their values and their order are those of one scan over all rows |
| OrderBy.PassIsSort | tools/serverless/fanout.py:138-139 | sorting the rows that have a value, reversed or not, with the NULL rows after them, is one stable sort |
| OrderBy.OneMorePass | tools/serverless/fanout.py:133-139 | sorting by the later terms and then by an earlier one is sorting by all of them |
| OrderBy.Order | tools/serverless/fanout.py:131-140 | the result is the limit's slice of one stable lexicographic sort by all terms, refused exactly when a term names no output column; of two rows that agree before a term the earlier one's number or text is at most the later one's, at least with DESC, and a NULL stands before no value |
| OrderBy.SortedInOrder | tools/serverless/fanout.py:131-140 | the rows of one stable sort by all terms, limited or not, are in the order that ASC, DESC and NULLs last say, number by number and text by text |
| FanoutAnswer.SplitCoversTable | tools/serverless/fanout.py:64-78 | the rows of the runs, one run after another, are all rows of the table |
| FanoutAnswer.AnswerOne | tools/serverless/fanout.py:262-280 | split, answered by workers and merged, an ungrouped query has the single worker's answer, whatever the number of workers |
| FanoutAnswer.AnswerGroups | tools/serverless/fanout.py:262-281 | a grouped query has the single worker's groups in their order, then ORDER BY and LIMIT, the rows returned ascending or descending as each term says |
| CoordinatorAnswer.PayloadsCover | tools/serverless/fanout.py:263-266 | the protocol sends one payload a run of the split, and together they ask for every row once |
| CoordinatorAnswer.AnswerQuery | tools/serverless/fanout.py:233-280 | what any run of the coordinator returns for an answered grouped query is the answer of one scan of the table, ascending or descending as ORDER BY says, when workers answer and count right |
| CoordinatorAnswer.AnswerUngrouped | tools/serverless/fanout.py:233-280 | and for one without groups |
| Coordinator.EveryRunIsSafe | tools/serverless/fanout.py:192-284 | for any queries, interleaving and replies: nothing is prepared or queried before an acknowledgement for that worker version, nothing partial before a successful preparation or twice; an answer has every part and a successful preparation of all inputs with the same plan; a refused preparation refuses the query |
| Coordinator.AnyStep | tools/serverless/fanout.py:208-284 | each step of a query owes only what has already happened |
| Coordinator.OutcomeIsVerdict | tools/serverless/fanout.py:233-284 | however its steps interleave with other queries', a query ends with the verdict on its replies, the full preparation's refusal first |
| Coordinator.AnsweredIff | tools/serverless/fanout.py:233-284 | exactly the plain aggregate queries are answered whose plan has only COUNT, SUM, MIN, MAX and AVG, whose counts are as many as the inputs, whose parts are all answered, and whose full plan, when only the first input was prepared for, is the same |
| Coordinator.RefusedIff | tools/serverless/fanout.py:243-284 | exactly the queries of another shape, those whose preparation is refused, whose plan has another function, or whose full plan is refused or another one, are refused |
| Coordinator.FirstPreparation | tools/serverless/fanout.py:249-260 | the first input alone is prepared exactly when counts are given and no input has a `*`; the inputs are then those given, else those the preparation found |
| Coordinator.Process.Negotiate | tools/serverless/fanout.py:205-219 | the cache grows by the key of a published version that acknowledged, and a cached one is not asked |
| Coordinator.Process.Scatter | tools/serverless/fanout.py:192-199 | every payload is sent once and its reply kept in order |
| Coordinator.Process.Collect | tools/serverless/fanout.py:192-199 | the outcome of a scatter: a failed call, else a reply without an answer, else the answers |
| Coordinator.Process.AfterPreparation | tools/serverless/fanout.py:247-277 | the checks, the scatter beside the full preparation, and the decision are moves of the machine that end with the verdict |
| Coordinator.Process.RunQuery | tools/serverless/fanout.py:233-284 | a query from start to end is a run of the machine that ends with the verdict |
| ContextLifetime.EveryRunMeetsTheContract | include/zpq.h:18-23 | any callers, calls that fail before they are made, readers and closers in any order, no wait cut short: native calls only on a live context, streams released before the free, one free, no shutdown after it; the count exact, no wake-up lost |
| ContextLifetime.ShutdownBeforeWaiting | include/zpq.h:18-23 | in every such run, before any closer waits or has taken a held context, shutdown was called on that context while it was live |
| ContextLifetime.ShutdownsAndCallbacks | python/zpq.py:257-260 | one step calls shutdown exactly when it begins the close of a held context, and a stream's callback exactly when a reader reads |
| ContextTrace.ObservedIs | include/zpq.h:18-23 | the contract holds of a sequence of native calls exactly when nothing follows the free, nothing gets NULL, calls end and streams are used that are open, and the free finds none |
| ContextTrace.RunIsInOrder | include/zpq.h:18-23 | every such run makes a sequence of native calls in that order, and its counters are those of the sequence |
| ContextTrace.NoWakeUpLost | python/zpq.py:179-183 | in every such run the in-flight count is the number of callers and readers inside, a closer that waits without a notification waits for one of them, and a freed context has none |
| ContextLifetime.NextKeeps | python/zpq.py:170-265 | every atomic step keeps the accounting, the single owner of the context and the pending notifications |
| ContextLifetime.PhaseMeans | include/zpq.h:131-132 | a counted call keeps the context alive, and the closer that frees it has it alone |
| ContextLifetime.LeaveKeeps | python/zpq.py:180-183 | leaving, with a notification from the last run call or from any reader, keeps the invariant |
| ContextClosing.Drain | python/zpq.py:256-265 | callers and readers that finish what they began leave none counted, the closers still waiting |
| ContextClosing.CloserCanFinish | python/zpq.py:250-265 | from every state of every run a waiting closer can still return |
| ContextClosing.InterruptSafeIff | integrations/spark/src/main/java/dev/zpq/spark/ZpqNative.java:288-303 | an interrupted wait keeps the contract, whatever follows, if and only if no counted call has native work left |
| ContextClosing.PendingBreaks | integrations/spark/src/main/java/dev/zpq/spark/ZpqNative.java:288-303 | with native work left, one more move breaks the contract |
| ContextClosing.InterruptedRun | integrations/spark/src/main/java/dev/zpq/spark/ZpqNative.java:277-307 | a run of two threads in which the interrupted closer frees the context under a call |
| ContextMonitor.Context.EnterRun | python/zpq.py:173-176 | a run call is counted, or refused once closing |
| ContextMonitor.Context.CallRun | python/zpq.py:185-188 | the pointer read outside the lock is never NULL |
| ContextMonitor.Context.LeaveRun | python/zpq.py:179-183 | the count drops, and the last call wakes the closers |
| ContextMonitor.Context.EnterArrow | python/zpq_arrow.py:85-88 | an Arrow call is counted, or refused once closing |
| ContextMonitor.Context.LeaveArrow | python/zpq_arrow.py:98-104 | the count drops and the closers are woken |
| ContextMonitor.Context.BeginClose | python/zpq.py:256-262 | close refuses new calls, calls shutdown once on a held context, and waits while calls are counted, never without that shutdown |
| ContextMonitor.Context.Wake | python/zpq.py:261-263 | a woken closer waits again or takes the context |
| ContextMonitor.Context.FreeContext | python/zpq.py:264-265 | the free happens once, with no call inside and no stream live |
| ContextMonitor.Reader.Close | python/zpq_arrow.py:57-65 | the first close releases the stream and drops the count once; later ones do nothing |
| ReaderClosing.ClosedOnceIff | python/zpq_arrow.py:57-65 | over any closes of one reader in any order, one release and one drop of the count at most, exactly when no test falls between the test and the update of another close |
| ReaderClosing.DoubleClose | integrations/spark/src/main/java/dev/zpq/spark/ZpqNative.java:217-221 | two closes that overlap: two releases, and nothing counted while another call is |
| SqlText.QuotedRoundTrip | integrations/spark/src/main/java/dev/zpq/spark/ZpqPartitionReader.java:165-170 | a text with its quotes doubled is read back up to whatever follows |
| SqlText.DecimalRoundTrip | integrations/spark/src/main/java/dev/zpq/spark/ZpqFilterTranslator.java:167-169 | a decimal's plain text is read back with its digits and scale |
| Dates.DateRoundTrip | integrations/spark/src/main/java/dev/zpq/spark/ZpqFilterTranslator.java:185-190 | every date is read back from its ISO text |
| Dates.MonthsFollow | integrations/spark/src/main/java/dev/zpq/spark/ZpqFilterTranslator.java:185-190 | the dates are those of the proleptic Gregorian calendar: each month ends where the next begins in its count of days |
| Utf8.DecodeRoundTripIff | integrations/spark/src/main/java/dev/zpq/spark/ZpqFilterTranslator.java:182-184 | bytes come back from the text they are decoded to exactly when they are valid UTF-8 |
| SqlText.LexThen | integrations/spark/src/main/java/dev/zpq/spark/ZpqFilterTranslator.java:27-161 | tokens written with the translator's spacing are read back as they were |
| FilterExpr.ContainsIsLike | integrations/spark/src/main/java/dev/zpq/spark/ZpqFilterTranslator.java:83-88 | containing a wildcard-free text is matching it between two percent signs |
| FilterExpr.StartsWithIsLike | integrations/spark/src/main/java/dev/zpq/spark/ZpqFilterTranslator.java:89-94 | starting with it is matching it before a percent sign |
| FilterExpr.EndsWithIsLike | integrations/spark/src/main/java/dev/zpq/spark/ZpqFilterTranslator.java:95-100 | ending with it is matching it after one |
| FilterExpr.ComparedMeans | integrations/spark/src/main/java/dev/zpq/spark/ZpqFilterTranslator.java:28-57 | a comparison is unknown exactly with a NULL, and else compares the numbers, texts, bytes or dates that the values are |
| FilterExpr.DecimalScale | integrations/spark/src/main/java/dev/zpq/spark/ZpqFilterTranslator.java:167-169 | one more of scale is a tenth of a decimal's value, for scales of either sign |
| FilterExpr.KleeneTables | integrations/spark/src/main/java/dev/zpq/spark/ZpqFilterTranslator.java:102-160 | NOT, AND and OR of what is true, false or unknown |
| FilterExpr.AnyEqualMeans | integrations/spark/src/main/java/dev/zpq/spark/ZpqFilterTranslator.java:68-81 | an IN list holds exactly when one of its values is equal, and fails exactly when all are other values |
| FilterParser.ShowRoundTrip | integrations/spark/src/main/java/dev/zpq/spark/ZpqFilterTranslator.java:27-161 | an expression written as the translator writes it is parsed back, NOT over AND over OR, whatever follows |
| SparkFilter.TranslatedText | integrations/spark/src/main/java/dev/zpq/spark/ZpqFilterTranslator.java:27-161 | whenever there is a translation, it is the text of the filter's expression |
| SparkFilter.TranslatedIff | integrations/spark/src/main/java/dev/zpq/spark/ZpqFilterTranslator.java:20-190 | a filter has a translation exactly when every test in it names a plain column of the schema and has only literals with a text, however tests are combined or negated |
| SparkFilter.TranslatedMeaning | integrations/spark/src/main/java/dev/zpq/spark/ZpqFilterTranslator.java:27-161 | that expression is as true, false or unknown as the filter on every row, when byte literals are valid UTF-8 |
| SparkFilter.TestKeptIff | integrations/spark/src/main/java/dev/zpq/spark/ZpqFilterTranslator.java:28-81 | for comparisons and IN lists that is the exact condition: some row tells invalid bytes from their text, whatever the operator |
| FilterPushdown.FilterMeaning | integrations/spark/src/main/java/dev/zpq/spark/ZpqFilterTranslator.java:27-161 | parsing the translated text and evaluating it gives Spark's truth value on every row, when byte literals are valid UTF-8 |
| FilterPushdown.FilterMeaningIff | integrations/spark/src/main/java/dev/zpq/spark/ZpqFilterTranslator.java:28-81 | for tests with literals, exactly then |
| FilterPushdown.LostRow | integrations/spark/src/main/java/dev/zpq/spark/ZpqFilterTranslator.java:182-184 | a filter on the byte 0xFF is pushed down as another one and leaves none over: the row that holds the byte is lost |
| FilterPushdown.JoinMeans | integrations/spark/src/main/java/dev/zpq/spark/ZpqScanBuilder.java:62-76 | parts joined with AND are parsed as their conjunction |
| FilterPushdown.SplitConjunction | integrations/spark/src/main/java/dev/zpq/spark/ZpqScanBuilder.java:62-75 | the pushed and the left-over filters together are the original conjunction |
| FilterPushdown.PushFilters | integrations/spark/src/main/java/dev/zpq/spark/ZpqScanBuilder.java:55-77 | a row's truth under the pushed text and the left-over filters is its truth under all filters, when the pushed byte literals are valid UTF-8 |
| Json.AppendQuoted | integrations/spark/src/main/java/dev/zpq/spark/ZpqJson.java:36-58 | the loop appends the quoted and escaped text |
| Json.QuoteRoundTrip | integrations/spark/src/main/java/dev/zpq/spark/ZpqJson.java:36-400 | every text, control characters included, is read back from its quoted form |
| Json.EscapesMean | integrations/spark/src/main/java/dev/zpq/spark/ZpqJson.java:370-400 | what each escape of one letter stands for |
| Json.HexEscape | integrations/spark/src/main/java/dev/zpq/spark/ZpqJson.java:370-400 | `u` takes four hexadecimal digits of either case, the highest first (surrogate halves are left out) |
| Json.HexDigits | integrations/spark/src/main/java/dev/zpq/spark/ZpqJson.java:388-391 | the sixteen digits in order, in either case, and no other |
| Json.Parser.ParseString | integrations/spark/src/main/java/dev/zpq/spark/ZpqJson.java:350-400 | the fast path and the slow path both read the text that the escapes stand for |
| Json.Parser.ParseValue | integrations/spark/src/main/java/dev/zpq/spark/ZpqJson.java:277-346 | the parser object reads what the grammar gives, lenient ends included, and terminates |
| Json.ParseDocument | integrations/spark/src/main/java/dev/zpq/spark/ZpqJson.java:61-68 | a document is its first value, which must be an object and not bytes |
| JsonPrint.PrintRoundTrip | integrations/spark/src/main/java/dev/zpq/spark/ZpqJson.java:277-437 | compact JSON is read back as the value it was written from |
| ScanSql.RowScanSql | integrations/spark/src/main/java/dev/zpq/spark/ZpqPartitionReader.java:153-170 | the SQL of a scan, refused exactly when a name or the path has a NUL |
| ScanSql.ScanRoundTrip | integrations/spark/src/main/java/dev/zpq/spark/ZpqPartitionReader.java:153-170 | reading that SQL gives the original names and path, then the filter's own tokens |
| ScanRequest.BuildStructuredAggRequest | integrations/spark/src/main/java/dev/zpq/spark/ZpqPartitionReader.java:111-137 | the builder writes exactly the entries of the request |
| ScanRequest.BuildSqlScanRequest | integrations/spark/src/main/java/dev/zpq/spark/ZpqPartitionReader.java:139-151 | the builder writes the scan's SQL and settings |
| ScanRequest.AggRequestRoundTrip | integrations/spark/src/main/java/dev/zpq/spark/ZpqPartitionReader.java:111-137 | parsing an aggregate request gives exactly the path, row groups, settings, filter, groups and aggregates put in |
| ScanRequest.AggRequestSays | integrations/spark/src/main/java/dev/zpq/spark/ZpqPartitionReader.java:111-137 | of what is read back: the row groups exactly when both bounds are given, a parallelism of one at least, the memory limit and the cache flag, and of filter, groups and aggregates those that are not empty |
| ScanRequest.ScanRequestRoundTrip | integrations/spark/src/main/java/dev/zpq/spark/ZpqPartitionReader.java:139-170 | parsing a scan request gives its SQL, and reading that gives the original names, path and filter |
| RoundMachine.RecordKeepsValid | bench/lane.py:120-130 | recording a missing rep of a round keeps the journal one that a run, cut short anywhere, can leave |
| RoundMachine.FastestIsLeast | bench/stalls.py:59-63 | the attempt that others are held against is the first of the fastest timed ones, missing exactly when none is timed |
| RoundMachine.StalledWhen | bench/stalls.py:26-46 | within a second of the fastest, or within three times its time, only the host's own counter makes an attempt stalled; outside both a missing counter does, or half of the loss spent stalled over bytes at most a tenth more |
| RoundMachine.Lane.Run | bench/lane.py:249-270 | from an empty or a resumed journal the lane ends settled: every round complete, the last undisturbed or the third |
| RoundMachine.FirstRound | bench/lane.py:249-262 | a settled lane has every timed rep of every case and engine in round 0; a hot one a warm-up of each, a cold one no warm-up in any round |
| RoundMachine.RerunIffDisturbed | bench/lane.py:262-270 | a case ran in round r+1 exactly when round r disturbed it |
| RoundMachine.NothingPending | bench/score.py:31-33 | a case disturbed in its last round is quarantined, so none is pending |
| RoundMachine.QuarantinedIff | bench/stalls.py:87-91 | a case is quarantined exactly when its last round disturbed it, which is exactly when all three rounds did |
| RoundMachine.NoCellIncomplete | bench/score.py:29-51 | every cell not quarantined failed or is a median over exactly the planned reps, the latter exactly when every rep is checked |
| ShipBar.Tally | bench/score.py:54-77 | the loop's counters and verdict are the rule counted over the planned cases |
| ShipBar.CountOfParts | bench/score.py:57-65 | the planned cases split into quarantined, failed and scored ones |
| ShipBar.BarOfWins | bench/score.py:54-77 | over cases won, closely lost (by at most half the rival's time), tied or set aside, the bar is met exactly when more than half of all planned cases are won and at most a fifth are lost |
| ShipBar.BadlyLostMisses | bench/score.py:60-75 | one case failed, or lost by more than half a rival's time, misses the bar |
| ShipBar.WorseZpqNeverMeets | bench/score.py:54-77 | slower or failed zpq cells never turn a missed bar into a met one |
| ShipBar.FailedRivalsNeverMiss | bench/score.py:54-77 | failed rival cells never turn a met bar into a missed one |
| QuickCheck.Run.ExecuteAll | bench/quick.py:613-614 | executions are recorded in order up to the first that is cut, which stops the turn |
| QuickCheck.Run.HashTurn | bench/quick.py:612-623 | a case's first answers: recorded, compared with each other and with another host's, and marked when they differ |
| QuickCheck.Run.HotTurn | bench/quick.py:629-644 | a timed repetition of a case: recorded, compared with each other and with the remembered first answers, and marked where they differ |
| QuickCheck.Run.Worker | bench/quick.py:554-664 | the journal is the fixed schedule's turns up to the one that stops, and the exit code is 0 exactly when nothing stopped the run, every answer is clean and no case is flagged |
| QuickCheck.ExitCodes | bench/quick.py:664 | 0 without a stop or a flagged case, 2 for a run cut short, 3 for a wrong answer or a flagged case |
| QuickCheck.AgreeMeans | bench/quick.py:411-425 | two answers agree when nothing differs, or only the Parquet bytes, with a declared reason, a clean exit and both files validated |
| QuickCheck.OrderAlternates | bench/quick.py:629-633 | the candidate goes first in the first answers and in repetition 1, and the builds change places from one repetition to the next |
| QuickCheck.TurnPassesIffClean | bench/quick.py:416-425 | a turn is passed exactly when every build answers, the builds agree and timed answers repeat the first ones, whichever build goes first |
| QuickCheck.KeysOnce | bench/quick.py:611-633 | no execution is recorded twice |
| QuickCheck.FirstAnswersFirst | bench/README.md:103-104 | before the first timed sample, every first answer of every build is recorded and good, and its turn clean |
| QuickCheck.SelectedWereChecked | bench/quick.py:458-463 | wherever the run stopped, a selected sample was compared with its partner and repeats its first answer |
| QuickCheck.SamplesArePairedReps | bench/quick.py:434-455 | the number of samples of a build is the number of repetitions in which every build has a good one |
| QuickCheck.BothBuildsAlike | bench/README.md:106-107 | wherever the run stops, candidate and base have samples of the same repetitions, and equally many |
| QuickCheck.MedianIsMiddle | bench/quick.py:441 | twice the median is the sum of the two middle times in ascending order, which are one for an odd number |
| QuickCheck.FlaggedIff | bench/quick.py:446-454 | a case is flagged exactly when both builds answered every time with all their samples and the candidate's median is above the base's by more than the noise in hundredths of it |
| QuickCheck.CoveredIffAllPass | bench/quick.py:428-468 | every median is there exactly when every planned turn was passed |
| QuickCheck.TimesDecideNoStop | bench/README.md:106-107 | no measured time ends the sampling: runs that differ in times alone leave the same rows and stop alike |
| QuickCheck.TimesSelectNothing | bench/quick.py:458-463 | no measured time decides which samples count |

## Left out

- Python's `field` returns a list that aliases the metadata, and edits go through it; here an edit makes a new value. Nothing in these edits reaches one list by two names.
- `Compact`, `_Thrift`, `fields` and the footer walkers are objects or generators with a position; they are modelled as functions of the remaining bytes, as the class `ThriftReader.Reader` is proved to be. Recursion limits are not modelled.
- ThriftRoundTrip.RoundTrip: doubles are eight bytes and binaries are lists of bytes; the writer's check that a list header's length fits is Python's own and never fails.
- FooterWalk.FooterFiltersAgree: the physical type stays a number and the path stays bytes; a column without them, on which the source raises, is kept as absent.
- FooterWalk.FooterAgrees: framing the footer at the end of the file is in `Footer`, not repeated.
- RelocatedFile.RelocateAndRewrite: the bound on the new body is on what the edit appends, and a footer of 2^32 bytes or more is a failure, as in the source.
- FileRelocation.RelocateFile: replaced statistics are parameters, and the fields of each chunk have the types of the format; a chunk whose pages do not fill it fails in the source and is excluded.
- PageIndexCheck.Walk: a position seen twice ends the model's walk with the verdict that it never ends, where the source goes on; what Python's negative indices read, once a walk goes back before the file, is a parameter.
- PageIndexCheck.CheckColumnIndex: NaN counts, signed zero and decimal conversion are not modelled; values and bounds arrive in one total order, decoded elsewhere, and the truncation of byte-array bounds is a parameter. A data page with a negative number of values is rejected; what PyArrow makes of a slice of negative length, and of what follows it, is not part of this model.
- PageIndexCheck.CheckChunk: a malformed index, on which the source raises, is a rejection, and summary figures are not computed.
- PageIndexCheck.CheckLayout: accepting a chunk does not mean that its pages tile it; `LaidOutTiles` says when they do.
- RowGroupSplit.SplitRowGroups: input files are distinct; a repeated file next to itself would join slices of both.
- Merge.MergeGroups: sums and averages are exact; NaN, infinities and the final float rounding of AVG are not modelled, and JSON group keys are taken as distinct for distinct values.
- FanoutAnswer.AnswerGroups: workers are taken to answer their rows correctly, groups in order of first appearance, and supplied row-group counts to be right; the text of ORDER BY is already split into terms.
- Coordinator.EveryRunIsSafe: a failed call is one kind of reply, the merge itself is in `Merge`, and the parsing of function names into published versions is a given key.
- CoordinatorAnswer.AnswerQuery: the text of an answer is read by a given function.
- ContextLifetime.EveryRunMeetsTheContract: closes of one reader do not overlap here, as the header asks of its callbacks (`ReaderClosing` has the run in which they do); asynchronous signals between two statements are not modelled, and a native call is one begin and one end.
- SparkFilter.TranslatedMeaning: floating-point literals are not modelled; a literal of any type the source does not print has no text. Literals are taken to have their columns' types, as Spark gives them, and for compound filters valid UTF-8 is shown to be enough, not to be needed.
- FilterPushdown.FilterMeaning: the reference reader of filter text is this project's own, and so is its reading of a quoted literal beside a date or bytes (docs/capabilities.md promises exact comparison of dates and decimals); the engine's parser is not part of this model.
- Json.Parser.ParseValue: the parser works on a whole document; line ranges of NDJSON, a sign among the four digits of an escape and surrogate halves are not modelled.
- ScanRequest.BuildStructuredAggRequest: the request that writes a Parquet file is not modelled; it is the same kind of text.
- RoundMachine.Lane.Run: attempts are given outcomes; processes, eviction, judging and the engine lane's sessions are not modelled, and the order in which a re-run round takes its cases is by name.
- ShipBar.Tally: medians are exact positive times; the geometric mean and the list of worst ratios are not computed.
- QuickCheck.Run.Worker: what an execution gives is a parameter, so the deadline, idle probes, digests and validators are not modelled; a termination signal between two statements and a failing write of a record are not modelled either.
- QuickCheck.Flagged: medians and ratios are exact, not floating point; the report's other summary figures are not computed.
- Process spawning, host probes, SSH, locks, deadlines, boto3, PyArrow, DuckDB, Polars, Spark itself and every call into the native library: only their contracts appear, as parameters or abstract steps.
- Fixture recipes, packaging, documentation generators, benchmark suites and the HTTP service: data and plumbing.
