# sycsvpro in Dafny

sycsvpro is a Ruby toolbox for processing CSV files whose fields are
separated by `;`. Each tool reads an input file line by line, passes each
line through a row filter (which rows) and a column filter (which columns),
and writes a new file. This project models the tools and the filters they
share, and proves what each of them writes.

- Filters: `Filter` (the clause classifier), `RowFilter`, `ColumnFilter`,
  `ColumnTypeFilter` and `Header`.
- Tools: `Sorter`, `Unique`, `Transposer`, `Allocator`, `Counter`,
  `Aggregator`, `Collector`, `Mapper`, `Join`, `Merger`, `Analyzer` and
  `Table`.
- Data: `SpreadSheet`, and the absorbing value `NotAvailable`.

**Conventions.**
- A file is the sequence of its lines as `File#each` yields them, each with
  its line break. `chomp` is modelled explicitly (`Text.Chomp`).
- Ruby's `/;$/` matches a `;` at the end of the text or just before a line
  break. The model keeps that distinction (`Text.SepAtLineEnd`).
- Ruby's `^` matches at the start of the text and after every line break.
  The `Table` sum option is split at each ':' that follows "top" or "eof"
  at a line start (`Table.SumSep`). A sum pattern is dynamic when some
  line of it starts with a column reference and an operator
  (`Table.IsDynamic`).
- Every tool's `execute` is a method from input lines to output lines, or
  to an error. The file reading and writing around it is left out.
- Ruby's `String#split` drops trailing empty fields, and the model does the
  same (`Text.Split`). That is why the column filter appends a space to a
  line ending in `;`.
- The column filter re-encodes each line it projects with
  `encode('UTF-8', 'binary', invalid: :replace, undef: :replace, replace:
  '')`. Read as binary, every byte of a non-ASCII character is undefined
  and replaced by nothing, so exactly the non-ASCII characters disappear
  (`Text.Encoded`). Characters stand for what the line's bytes encode.
- Ruby's `Hash` keeps its keys in insertion order. The model represents it
  as `Dicts.Dict`: a key sequence plus a map.

**Parameters.** Library behaviour that the modelled sycsvpro files do not
define is a field of `Externals.Env` and is kept uninterpreted:
- regular-expression matching and `scan`;
- `pivot_each_column`;
- `Dsl#unstring` and `Dsl#split_by_comma_regex`;
- `String#to_f`;
- `Date.strptime`.

A compiled filter (its positions, patterns, pivot keys, type tags and date
format) is an `Externals.Selector`. The methods a `Filter` object already
has (its own and those of every Ruby object, which `send` reaches before
`method_missing`) are the parameter `Filter.Methods`.

**Specification style.**
- Each reading loop is a `while` loop proved against a recursive
  specification function, such as `Sorter.Keys` or `Unique.Written`.
- The meaning of that function is proved in lemmas: what the written lines
  are in terms of the input lines.
- `Header` and `Table` keep state across calls, so they are classes.

## Model

| member | source | states |
|---|---|---|
| Filter.FirstOf | lib/sycsvpro/filter.rb:12-16 | `=~` with `^`/`$` finds the first line of the clause that has the shape, and finds one exactly when some line has it |
| Filter.ClassifyByShape | lib/sycsvpro/filter.rb:11-18 | on the lines of a clause, the first of the five tests that matches some line decides, with the digits or pattern body of the first line it matches; a clause none of whose lines has a shape reaches `super` |
| Filter.ShapesExclusive | lib/sycsvpro/filter.rb:11-18 | no line has two shapes |
| Filter.ClassifyOneLine | lib/sycsvpro/filter.rb:11-18 | a clause without line breaks (`>n`, `<n`, `n`, `a-b`, `/p/`) is classified as its kind with the captured digits or pattern body, and a clause of no shape reaches `super` |
| Filter.EqualBeforeBreak | lib/sycsvpro/filter.rb:14 | "5\n" is the equal clause 5 |
| Filter.EqualAfterBreak | lib/sycsvpro/filter.rb:14 | "x\n5" is the equal clause 5 |
| Filter.GreaterTestedFirst | lib/sycsvpro/filter.rb:12-14 | in "5\n>3" the greater test, which comes first, wins |
| Filter.PatternIsGreedy | lib/sycsvpro/filter.rb:16 | a pattern's body runs from the first slash to the last |
| Filter.SendOneLine | lib/sycsvpro/filter.rb:11-18 | a one-line clause naming no method gives the text of its shape with the captures, and raises exactly when it has none of the five shapes |
| Filter.Process | lib/sycsvpro/filter.rb:24-31 | one result per comma-separated clause, in clause order: the outcome of the filter object's method of that name when it has one, else the `method_missing` text; or the error of the first clause whose call fails |
| RowFilter.Process | lib/sycsvpro/row_filter.rb:10-16 | the line is returned exactly when its index is listed, no positions are given, or a pattern matches; otherwise nil |
| RowFilter.NoPositionsKeepAll | lib/sycsvpro/row_filter.rb:11 | without positions every row is kept |
| RowFilter.RangeOneToFive | lib/sycsvpro/row_filter.rb:11 | "1-5" keeps row 1 and rejects row 6 |
| RowFilter.PatternKeepsUnlisted | lib/sycsvpro/row_filter.rb:12-14 | positions and patterns combine by OR |
| RowFilter.MorePatternsKeepMore | lib/sycsvpro/row_filter.rb:12-14 | adding patterns never drops a row |
| RowFilter.RepeatedPosition | lib/sycsvpro/row_filter.rb:11 | a position listed twice counts once (`uniq`) |
| ColumnFilter.Process | lib/sycsvpro/column_filter.rb:10-24 | the projection of a line: nil for a nil or empty line; otherwise the line loses its non-ASCII characters and is padded, and comes back whole when nothing is selected, else as the selected fields and pivot columns joined |
| ColumnFilter.PivotEach | lib/sycsvpro/column_filter.rb:16-18 | the matched pivot columns, in pivot order |
| ColumnFilter.ProjectedFields | lib/sycsvpro/column_filter.rb:15-23 | the projection splits into the in-range fields at the distinct positions, in first-listed order, then the matched pivot columns; out-of-range positions add nothing |
| ColumnFilter.Unselected | lib/sycsvpro/column_filter.rb:11-14 | nil or empty gives nil; without positions and pivots the line comes back without its non-ASCII characters, with a space added after a `;` at its end; an ASCII line comes back as it is, save that space |
| ColumnFilter.NonAsciiLineEmpty | lib/sycsvpro/column_filter.rb:11-12 | the encoding comes after the empty test: "é" gives "", not nil |
| ColumnFilter.EncodedFirst | lib/sycsvpro/column_filter.rb:12 | a line with some ASCII character projects exactly as its ASCII characters alone |
| ColumnFilter.NonAsciiDropped | lib/sycsvpro/column_filter.rb:12-23 | a two-field line projected on 0 and 1 gives the line without its non-ASCII characters |
| ColumnFilter.NonAsciiCharDropped | lib/sycsvpro/column_filter.rb:12 | a non-ASCII character between ASCII text is dropped and the text around it closes up |
| ColumnFilter.MullerEncoded | lib/sycsvpro/column_filter.rb:12 | "Müller;5" is encoded as "Mller;5" |
| Text.EncodedAscii | lib/sycsvpro/column_filter.rb:12 | the encoded text is no longer than the input and all ASCII, and ASCII text is unchanged |
| Text.EncodedAppend | lib/sycsvpro/column_filter.rb:12 | encoding works character by character: it distributes over concatenation |
| Text.EncodedIdempotent | lib/sycsvpro/column_filter.rb:12 | encoding a second time changes nothing |
| ColumnFilter.RepeatedPosition | lib/sycsvpro/column_filter.rb:15 | a position listed twice changes nothing |
| ColumnFilter.FirstListedOrder | lib/sycsvpro/column_filter.rb:15-23 | "3,1,3" on any four-field ASCII line "a;b;c;d" gives "d;b": listing order, each position once |
| ColumnFilter.EmptyLastFieldKept | lib/sycsvpro/column_filter.rb:13-20 | "a;" projected on 0 and 1 gives "a; ", so the empty last field survives |
| ColumnFilter.FinishSplitsBack | lib/sycsvpro/column_filter.rb:19-23 | when the last selected entry is present, splitting the result gives back every present entry, an empty last one as the added space |
| ColumnFilter.TrailingPastEndHidesEmptyField | lib/sycsvpro/column_filter.rb:19-23 | a trailing out-of-range position hides an empty field from the space check: on "a;;b", positions 1 gives " " but 1,5 gives "" |
| ColumnTypeFilter.Process | lib/sycsvpro/column_type_filter.rb:8-38 | the projected fields, each replaced by its coerced value under its position's type tag |
| ColumnTypeFilter.OnePerField | lib/sycsvpro/column_type_filter.rb:11-15 | nil stays nil; otherwise one value per projected field, in order |
| ColumnTypeFilter.EmptyNumberIsZero | lib/sycsvpro/column_type_filter.rb:16-22 | an 'n' field without '.' is read by `to_i`, so "" is 0 |
| ColumnTypeFilter.BlankDateIsLast | lib/sycsvpro/column_type_filter.rb:24-25 | a blank 'd' field becomes 9999-09-09, later than every earlier date |
| ColumnTypeFilter.UnparsedDateIsNil | lib/sycsvpro/column_type_filter.rb:27-33 | a date that does not parse becomes nil instead of raising |
| ColumnTypeFilter.OtherTagsKeepStrings | lib/sycsvpro/column_type_filter.rb:15-34 | a field with another tag, or none, stays its string |
| Header.Template | lib/sycsvpro/header.rb:9-15 | nil or empty gives no entries; otherwise the comma-separated names |
| Header.Header.constructor | lib/sycsvpro/header.rb:9-15 | the header entries are the template's names |
| Header.Header.Process | lib/sycsvpro/header.rb:17-21 | "" for an empty template; the entries become `Stored` (slot 0 holds the line's fields) and the result is the header line of the old entries |
| Header.SlotZeroForgotten | lib/sycsvpro/header.rb:19-20 | the header line depends only on the new line and the template's later entries: nothing accumulates |
| Header.ProcessTwice | lib/sycsvpro/header.rb:17-21 | after a first `process` call, a second one returns the same header line and leaves the same entries as if the first had never been made |
| Header.StarTemplate | lib/sycsvpro/header.rb:17-21 | template "*,A,B" on "a;b;c" gives "a;b;c;A;B" |
| NotAvailable.FloorDivIsFloor | lib/sycsvpro/spread_sheet.rb:129-136 | Integer division rounds toward negative infinity |
| NotAvailable.NAFirstAbsorbs | lib/sycsvpro/not_available.rb:19-21 | NA as left operand gives NA for every operator |
| NotAvailable.NASecondAbsorbs | lib/sycsvpro/not_available.rb:25-27 | NA as right operand of an Integer gives NA, division included |
| NotAvailable.NAPrints | lib/sycsvpro/not_available.rb:14 | NA prints as "NA" |
| NotAvailable.NAExprAbsorbs | lib/sycsvpro/not_available.rb:19-27 | a nested expression that mentions NA and evaluates evaluates to NA |
| NotAvailable.NumericExprEvaluates | lib/sycsvpro/not_available.rb:19-27 | a numeric expression always evaluates, to NA exactly when it mentions NA |
| Sorter.TypedLeIsTotalPreorder | lib/sycsvpro/sorter.rb:45 | the order on coerced values is total and transitive |
| Sorter.KeyLeIsTotalPreorder | lib/sycsvpro/sorter.rb:45 | so is the lexicographic order on sort keys |
| Sorter.Kept | lib/sycsvpro/sorter.rb:38-42 | the indices of the lines with a typed projection, ascending |
| Sorter.CollectKeys | lib/sycsvpro/sorter.rb:38-42 | `sorted_rows` holds one key per kept line: its typed projection followed by its index |
| Sorter.WriteLines | lib/sycsvpro/sorter.rb:44-48 | each written line is the unstrung input line its key names |
| Sorter.Execute | lib/sycsvpro/sorter.rb:35-49 | the output is the kept lines, unstrung, in key order |
| Sorter.OrderPermutesKept | lib/sycsvpro/sorter.rb:45 | the output order rearranges the kept indices |
| Sorter.OutputIsKeptLines | lib/sycsvpro/sorter.rb:44-48 | every kept line is written exactly once |
| Sorter.OutputIsSorted | lib/sycsvpro/sorter.rb:45 | consecutive output keys are in order |
| Sorter.EqualKeysKeepInputOrder | lib/sycsvpro/sorter.rb:41 | two lines with equal projections come out in input order |
| Sorter.KeysAntisymmetric | lib/sycsvpro/sorter.rb:41 | keys of distinct lines never compare equal |
| Sorter.SortIsDetermined | lib/sycsvpro/sorter.rb:45 | every sorted rearrangement of the keys equals the computed one, whatever the sort algorithm |
| Sorting.SortedPermutationIsUnique | lib/sycsvpro/sorter.rb:45 | two sorted rearrangements under an antisymmetric total preorder are equal |
| Sorting.SortedDistinctStrings | lib/sycsvpro/allocator.rb:40 | `s.uniq.sort`: sorted, each element once, exactly the elements of s |
| Unique.Emitted | lib/sycsvpro/unique.rb:53-70 | the written line indices: ascending, each the first extracted line with its key, and all such lines |
| Unique.Execute | lib/sycsvpro/unique.rb:51-72 | the output is the extraction of each line that is first with its key, in input order |
| Unique.EachKeyOnce | lib/sycsvpro/unique.rb:66-69 | no two written lines share a key |
| Unique.FirstLineWins | lib/sycsvpro/unique.rb:62-69 | every extracted line is written, or an earlier written line has its key |
| Unique.FirstEarlierLineIsEmitted | lib/sycsvpro/unique.rb:62-69 | the earliest extracted line with a given key is written |
| Unique.RejectedLineDoesNotBlock | lib/sycsvpro/unique.rb:60-62 | a line the filters reject records no key |
| Unique.BlankLinesSkipped | lib/sycsvpro/unique.rb:54-56 | a line empty after chomp is never written |
| Transposer.AddRow | lib/sycsvpro/transposer.rb:64-67 | appending a row's fields keeps `transpose` equal to the columns of the rows so far |
| Transposer.Collect | lib/sycsvpro/transposer.rb:57-68 | `transpose` holds keys 0 up to the longest surviving row, key k mapping to field k of every row that has one |
| Transposer.Execute | lib/sycsvpro/transposer.rb:54-73 | output line k is column k of the surviving rows joined by ';' |
| Transposer.Output | lib/sycsvpro/transposer.rb:70-72 | as many lines as the longest surviving row |
| Transposer.ColumnCountsLongRows | lib/sycsvpro/transposer.rb:64-67 | column k has one entry per row with a field k: short rows are not padded |
| Transposer.TransposeTwice | lib/sycsvpro/transposer.rb:64-72 | on a rectangular table, transposing twice gives the table back |
| Allocator.Collect | lib/sycsvpro/allocator.rb:30-36 | `allocation` after every line, or the error of a kept line whose columns are nil |
| Allocator.Execute | lib/sycsvpro/allocator.rb:28-43 | the written lines, one per key, or the error |
| Allocator.GroupedFails | lib/sycsvpro/allocator.rb:35 | the loop fails exactly when a kept line has nil columns |
| Allocator.NilSplitOnly | lib/sycsvpro/allocator.rb:35 | that is the only error |
| Allocator.GroupedMeans | lib/sycsvpro/allocator.rb:30-36 | the keys are the distinct keys of the kept lines in order of first appearance, each with its lines' column values |
| Allocator.ListedIsSortedSet | lib/sycsvpro/allocator.rb:40 | a key's listed values are sorted, distinct and exactly its values |
| Allocator.OutputLines | lib/sycsvpro/allocator.rb:38-42 | output line j is the j-th distinct key followed by its distinct values, sorted |
| Allocator.FieldsOfAbsent | lib/sycsvpro/allocator.rb:34 | a key no kept line has has no values |
| Counter.CountColumns | lib/sycsvpro/counter.rb:50-53 | counting one line's values for its key, as `CountAll` says |
| Counter.ProcessFile | lib/sycsvpro/counter.rb:44-56 | `heading` and `customers` after every line |
| Counter.WriteResult | lib/sycsvpro/counter.rb:59-70 | the report of the tally |
| Counter.Execute | lib/sycsvpro/counter.rb:38-41 | `process_file` then `write_result` |
| Counter.CountAllMeans | lib/sycsvpro/counter.rb:50-53 | counting adds no customer, leaves others alone, and raises each count by its number of occurrences |
| Counter.CountAllHeading | lib/sycsvpro/counter.rb:51 | `heading` grows by the new values in order of first sight |
| Counter.EnrolMeans | lib/sycsvpro/counter.rb:49 | a new key joins the customers with no counts; a known one is unchanged |
| Counter.CountedMeans | lib/sycsvpro/counter.rb:44-56 | heading lists each counted value once in first-sight order; customers are the distinct keys in first-appearance order; counts are occurrence counts |
| Counter.HeadingDistinct | lib/sycsvpro/counter.rb:51 | `heading` never holds a value twice |
| Counter.OutputTable | lib/sycsvpro/counter.rb:59-70 | header "customer" plus the sorted distinct values, then one line per customer giving each value's count, 0 when absent |
| Counter.HeaderSorted | lib/sycsvpro/counter.rb:61 | the header values are the distinct counted values, sorted |
| Counter.CustomerCounts | lib/sycsvpro/counter.rb:62-67 | a customer's line lists the count of each heading value |
| Counter.EmptyProjectionNotCounted | lib/sycsvpro/counter.rb:47 | a line with a nil or empty projection is not counted |
| Counter.LabelledKeyColumn | lib/sycsvpro/counter.rb:30 | key option "0:customer" selects column 0 |
| Aggregator.ProcessLine | lib/sycsvpro/aggregator.rb:71-81 | one line of `process_aggregation` |
| Aggregator.ProcessAggregation | lib/sycsvpro/aggregator.rb:69-85 | the heading, counts, total and `sum_col` after every line |
| Aggregator.WriteResult | lib/sycsvpro/aggregator.rb:88-101 | the written lines with the sum line placed as `Placed` says |
| Aggregator.Execute | lib/sycsvpro/aggregator.rb:62-65 | `process_aggregation` then `write_result` |
| Aggregator.BuildSumLine | lib/sycsvpro/aggregator.rb:89-91 | the sum line: its title, empty fields, and the grand total |
| Aggregator.FinalHeading | lib/sycsvpro/aggregator.rb:83-84 | the heading flattened, with the sum column title at `sum_col` |
| Aggregator.DefaultScheme | lib/sycsvpro/aggregator.rb:107-119 | without a sum option: "Total" at line 0 and sum column "Total" |
| Aggregator.SchemeRoundTrip | lib/sycsvpro/aggregator.rb:107-119 | "title:row,column" is read back as its three parts |
| Aggregator.AggregatedMeans | lib/sycsvpro/aggregator.rb:69-85 | the distinct counted rows in first-appearance order with their counts; the total counts every counted row; `sum_col` is the largest field count |
| Aggregator.HeaderNotCounted | lib/sycsvpro/aggregator.rb:73-75 | with a header the first non-nil projection is the heading and is not counted |
| Aggregator.TotalIsSumOfCounts | lib/sycsvpro/aggregator.rb:79-91 | the grand total is the sum of the written counts |
| Aggregator.SumLinePlacement | lib/sycsvpro/aggregator.rb:92-99 | the sum line is written once, just before output line `sum_row` when it exists, else not at all |
| Collector.InitCollection | lib/sycsvpro/collector.rb:52-57 | the declared categories with their filters |
| Collector.DeclaredNames | lib/sycsvpro/collector.rb:53-56 | the categories are the declared names, each once, in first-declaration order |
| Collector.LastDeclarationWins | lib/sycsvpro/collector.rb:55 | a category takes the filter of its last declaration |
| Collector.Initial | lib/sycsvpro/collector.rb:55 | every category starts without entries |
| Collector.AddValues | lib/sycsvpro/collector.rb:35-37 | values are appended when not yet present |
| Collector.CollectRow | lib/sycsvpro/collector.rb:33-38 | every category's entries after one more kept row |
| Collector.Collect | lib/sycsvpro/collector.rb:30-39 | the entries after every kept row |
| Collector.WriteSections | lib/sycsvpro/collector.rb:41-46 | each category's bracketed name then its sorted entries |
| Collector.Execute | lib/sycsvpro/collector.rb:29-47 | the sections of the final categories |
| Collector.KeptRowsAre | lib/sycsvpro/collector.rb:31-32 | the kept rows are exactly the non-blank lines the row filter keeps |
| Collector.EntriesAreTheValues | lib/sycsvpro/collector.rb:33-38 | a category's entries are distinct and exactly the values its filter yields on the kept rows |
| Collector.RowValuesListed | lib/sycsvpro/collector.rb:35-36 | every value of every kept row is listed |
| Collector.SectionLayout | lib/sycsvpro/collector.rb:43-44 | a section is the bracketed name and the entries, sorted and each once |
| Mapper.InitMapper | lib/sycsvpro/mapper.rb:90-95 | the mapping from the mapping lines, a later line overriding an earlier one |
| Mapper.InitColFilter | lib/sycsvpro/mapper.rb:100-112 | the positions to map: the listed ones, or every column of the first non-empty line |
| Mapper.MapFields | lib/sycsvpro/mapper.rb:75-78 | each selected field replaced by its mapping, if any |
| Mapper.MapLines | lib/sycsvpro/mapper.rb:70-80 | the mapped lines, or the error of a rejected line |
| Mapper.Execute | lib/sycsvpro/mapper.rb:68-82 | `execute` over the input lines and the mapping lines |
| Mapper.NilUnmapped | lib/sycsvpro/mapper.rb:92-93 | nil never maps to a value |
| Mapper.OnlySelectedFieldsChange | lib/sycsvpro/mapper.rb:74-78 | a selected field takes its mapped value and every other field stays; none added or removed |
| Mapper.LastMappingWins | lib/sycsvpro/mapper.rb:92-93 | a later mapping line for the same source value wins |
| Mapper.EveryColumnByDefault | lib/sycsvpro/mapper.rb:101-111 | without `cols` every column of the first non-empty line is mapped |
| Mapper.UnmappedUnchanged | lib/sycsvpro/mapper.rb:75-78 | a field without a mapping is left alone |
| Mapper.UnmappedLineKept | lib/sycsvpro/mapper.rb:73-79 | a line none of whose values maps is written back stripped, the space added after a final ';' removed |
| Mapper.RejectedLineFails | lib/sycsvpro/mapper.rb:71-72 | a line the row filter rejects stops the mapper with an error |
| Join.Configure | lib/sycsvpro/join.rb:74-87 | the column list, the join columns and the positions from the option strings; `headerless` only when given as true |
| Join.ColPositions | lib/sycsvpro/join.rb:149-155 | without `pos` the inserted columns go to positions 0.. in order; otherwise the listed positions |
| Join.CreateLookupTable | lib/sycsvpro/join.rb:127-144 | the lookup table after every source line |
| Join.JoinLine | lib/sycsvpro/join.rb:110-118 | the insertions and fills of one kept line |
| Join.JoinLines | lib/sycsvpro/join.rb:94-119 | the header and joined lines after every input line, or the first error (a join column missing from `joins`, or an IndexError of `insert`) |
| Join.Execute | lib/sycsvpro/join.rb:90-121 | the lookup table, then the joined input |
| Join.LastSourceLineWins | lib/sycsvpro/join.rb:137-142 | for a repeated join value the last kept source line's requested columns win |
| Join.LookupTableOk | lib/sycsvpro/join.rb:127-144 | with a source join column the lookup never fails |
| Join.InsertLayout | lib/sycsvpro/join.rb:115 | inserting at ascending distinct in-range positions puts each inserted cell at its position and the fields in the other slots, in order |
| Join.FillLayout | lib/sycsvpro/join.rb:116 | storing at distinct in-range positions sets those slots and nothing else |
| Join.RowLayout | lib/sycsvpro/join.rb:109-117 | a kept line with distinct positions that fit the row, in any listed order, gets cell i of its matched source row at the i-th listed position and its own fields, in order, in the other slots |
| Join.InsertedAtFront | lib/sycsvpro/join.rb:149-151 | without `pos` the inserted cells are the first k cells, then the line's fields |
| Join.UnmatchedCellsEmpty | lib/sycsvpro/join.rb:113-116 | an unmatched line gets its inserted cells too, printed empty |
| Join.MatchedCellIsSourceColumn | lib/sycsvpro/join.rb:112-116 | inserted cell i of a matched line is requested column i of the source row |
| Join.BlankLinesSkipped | lib/sycsvpro/join.rb:94-97 | blank input lines are skipped but still count for the row index |
| Join.HeaderLineNotJoined | lib/sycsvpro/join.rb:101-106 | with a header, the first non-blank line is written only as the header |
| Merger.Configure | lib/sycsvpro/merger.rb:73-79 | the option strings split on ',' |
| Merger.Scanned | lib/sycsvpro/merger.rb:108-111 | every header column replaced by its scan result |
| Merger.ScanColumns | lib/sycsvpro/merger.rb:108-111 | the in-place scan loop computes `Scanned` |
| Merger.CreateFileHeader | lib/sycsvpro/merger.rb:113-117 | the key column and the positions of the present target headers |
| Merger.MergeFile | lib/sycsvpro/merger.rb:89-99 | the lines written for one file |
| Merger.Shift | lib/sycsvpro/merger.rb:86-87 | `shift`: the first element, nil for none, and the rest |
| Merger.Execute | lib/sycsvpro/merger.rb:82-102 | the header line, then every file's lines in file order |
| Merger.HeadingFirst | lib/sycsvpro/merger.rb:84 | the output starts with ';' and the target header names |
| Merger.PositionIsFirst | lib/sycsvpro/merger.rb:115 | `columns.index(h)` is the first column holding h |
| Merger.FileHeaderLayout | lib/sycsvpro/merger.rb:113-117 | the key column, then the first matching column of each target header that some column scans to, in target order; missing ones dropped |
| Merger.PresentMembers | lib/sycsvpro/merger.rb:115-117 | a present header is one some column scans to |
| Merger.MissingKeyIsColumnZero | lib/sycsvpro/merger.rb:113 | without a key the key column is 0 |
| Merger.FileRunMeans | lib/sycsvpro/merger.rb:89-99 | the first non-blank line is the file's header and is not written; blank lines are skipped; every later line is written through the file header |
| Analyzer.SkipBlank | lib/sycsvpro/analyzer.rb:39 | the loop stops at the first non-blank row, or runs off the end |
| Analyzer.Result | lib/sycsvpro/analyzer.rb:33-52 | the four fields, or the error of running past the last row |
| Analyzer.EmptyFileLeavesNil | lib/sycsvpro/analyzer.rb:37 | an empty file leaves all fields nil |
| Analyzer.ResultFields | lib/sycsvpro/analyzer.rb:38-48 | cols is the header row split, col_count its size, row_count the rows less one, sample_row the next non-blank row |
| Analyzer.NoSampleRowFails | lib/sycsvpro/analyzer.rb:44-45 | fewer than two non-blank rows make the loop read past the end |
| Analyzer.TwoRowsSucceed | lib/sycsvpro/analyzer.rb:38-48 | two non-blank rows always give a result |
| Table.ConvertToEnDE | lib/sycsvpro/table.rb:192-198 | "DE" turns '.' into '_' and ',' into '.' |
| Table.ConvertToEnOther | lib/sycsvpro/table.rb:192-198 | other formats leave the text alone |
| Table.ToNumberKinds | lib/sycsvpro/table.rb:176-180 | text without '.' is an integer, text with one a float |
| Table.GermanThousands | lib/sycsvpro/table.rb:176-198 | in "DE", "1.234" is the integer 1234 |
| Table.BlankIsNoDate | lib/sycsvpro/table.rb:183-189 | blank text is no date |
| Table.ToDateParses | lib/sycsvpro/table.rb:183-189 | non-blank text is a date exactly when the parser reads it |
| Table.PrepareSum | lib/sycsvpro/table.rb:216-221 | a nil or empty sum option gives neither a position nor patterns; otherwise both are set |
| Table.PrepareSumIsSplit | lib/sycsvpro/table.rb:218-222 | the position is the first field, upper-cased, of the option split at every ':' after a line-start "top" or "eof" (any case) with trailing empty fields dropped, and the pattern list text is its second field or nil |
| Table.PlacementAnyCase | lib/sycsvpro/table.rb:218-219 | a leading "top:"/"eof:" in any case is stored upper-cased as "TOP" or "EOF" |
| Table.PrepareSumPlain | lib/sycsvpro/table.rb:218-222 | for an option of one line: without a leading "top:"/"eof:" the whole option is the position and nil is split; with one, the rest after the colon, or nil when empty |
| Table.PlacementAfterLine | lib/sycsvpro/table.rb:218 | "top:"/"eof:" at the start of a later line separates too; the text before it, line break included, is the position |
| Table.PatternEndsAtPlacement | lib/sycsvpro/table.rb:218 | a second "top:"/"eof:" at a line start ends the pattern list text just before its colon |
| Table.PlacementOnSecondLine | lib/sycsvpro/table.rb:218-219 | "a\ntop:b" gives position "A\nTOP" and pattern list text "b" |
| Table.SecondPlacementEndsPattern | lib/sycsvpro/table.rb:218-222 | "top:x\neof:y" gives position "TOP" and pattern list text "x\neof" |
| Table.Table.constructor | lib/sycsvpro/table.rb:69-82 | an empty table with the given options |
| Table.Table.PrepareSumRow | lib/sycsvpro/table.rb:216-222 | the sum position and patterns, nothing for a nil or empty option |
| Table.Table.AddToSumRow | lib/sycsvpro/table.rb:225-239 | adds the value to each entry whose pattern names the column |
| Table.Table.Apply | lib/sycsvpro/table.rb:164-168 | one cell update and its difference added to the sum row |
| Table.Table.ApplyAll | lib/sycsvpro/table.rb:161-169 | every cell update of a row in turn |
| Table.Table.CreateRow | lib/sycsvpro/table.rb:159-170 | the row of a key (0s on first sight) takes each update, and the sum row follows |
| Table.Table.CreateTableData | lib/sycsvpro/table.rb:103-127 | the rows and sum row after every line |
| Table.Table.WriteToFile | lib/sycsvpro/table.rb:130-144 | the header, the rows, and the sum row at its place |
| Table.SumRowPlacement | lib/sycsvpro/table.rb:130-144 | a "TOP" sum row follows the header; an "EOF" one follows the last row |
| Table.NoSumOptionNoSumRow | lib/sycsvpro/table.rb:216-222 | no sum option, no sum row |
| Table.NoPatternsNoSums | lib/sycsvpro/table.rb:225-226 | without patterns the sum row is untouched |
| Table.AddedLiteral | lib/sycsvpro/table.rb:227-238 | a value is added once per literal pattern naming its column |
| Table.AddedOtherColumns | lib/sycsvpro/table.rb:227-238 | no other sum-row entry changes |
| Table.OneLineDynamic | lib/sycsvpro/table.rb:228 | a pattern without a line break is dynamic exactly when it starts with `(`? `c`, digits and one of `=~+.` |
| Table.DynamicPatterns | lib/sycsvpro/table.rb:228-232 | "c1+c2", "(c12=~/x/)", "c0.to_s" and "c1\nc2+c3" are dynamic; "Value", "c", "c1", "n1+n2" are not |
| Table.CreateRowAgrees | lib/sycsvpro/table.rb:159-170 | for literal patterns `create_row` keeps each sum entry equal to its column's total |
| Table.TabulatedMeans | lib/sycsvpro/table.rb:103-127 | one row per distinct key in first-appearance order, and literal sums are column totals |
| Table.HeaderLineSkipped | lib/sycsvpro/table.rb:107-118 | empty lines are skipped and the first other line is the header |
| Table.ScannedAfterHeader | lib/sycsvpro/table.rb:120-124 | after the header each kept line adds its entry |
| SpreadSheet.New | lib/sycsvpro/spread_sheet.rb:64-70 | the checked rows with label row and label cells shifted off |
| SpreadSheet.CheckSameColumnSize | lib/sycsvpro/spread_sheet.rb:198-205 | all rows have equal length |
| SpreadSheet.BuildIsValid | lib/sycsvpro/spread_sheet.rb:64-70 | construction returns only valid sheets |
| SpreadSheet.SizeCountsCells | lib/sycsvpro/spread_sheet.rb:79-81 | `size` is the number of cells |
| SpreadSheet.DefaultLabels | lib/sycsvpro/spread_sheet.rb:214-236 | without options rows and columns are labelled 0.. |
| SpreadSheet.ConstructionErrors | lib/sycsvpro/spread_sheet.rb:190-194 | construction fails with the source's complaints, in order |
| SpreadSheet.LabelsReassemble | lib/sycsvpro/spread_sheet.rb:214-236 | with both label options, putting the labels back restores the arguments |
| SpreadSheet.Subset | lib/sycsvpro/spread_sheet.rb:95-113 | `[]`: when every row index picks a row, those rows cut to the picked columns as a new sheet; otherwise the column indices pick from the list of picked rows (`row_selection[*c]`): one index gives the sheet of that entry, two a slice as a one-row sheet of rows, nil or any other count an error |
| SpreadSheet.SelectColumns | lib/sycsvpro/spread_sheet.rb:103-107 | each picked row cut to the picked columns, nil for a column outside the row |
| SpreadSheet.MissingRowCutsNothing | lib/sycsvpro/spread_sheet.rb:108-110 | when an index picks no row, nothing is cut to columns: the result is a whole row of the sheet, a row of picked rows, or an error, and always an error unless one or two column indices are given |
| SpreadSheet.MissingRowExamples | lib/sycsvpro/spread_sheet.rb:95-113 | on [1, 2], [3, 4]: `s[[0, 5], [0]]` is the sheet [1, 2], `s[[0, 5]]` holds the row [1, 2] as its one cell, `s[[5, 0], [0]]` raises, and so do three column indices |
| SpreadSheet.SubsetCells | lib/sycsvpro/spread_sheet.rb:95-113 | cell (i, j) of the subset is cell (rs[i], cs[j]) |
| SpreadSheet.SubsetAll | lib/sycsvpro/spread_sheet.rb:95-113 | `s[nil, nil]` has the rows of s |
| SpreadSheet.Process | lib/sycsvpro/spread_sheet.rb:239-257 | the larger dimensions, every cell combining the cyclically repeated cells of both operands |
| SpreadSheet.SameSizeIsCellwise | lib/sycsvpro/spread_sheet.rb:239-257 | equal dimensions combine cell by cell |
| SpreadSheet.BroadcastExample | lib/sycsvpro/spread_sheet.rb:239-257 | [2],[4] * [5,6],[7,8] gives [10,12],[28,32] |
| SpreadSheet.Equals | lib/sycsvpro/spread_sheet.rb:154-163 | `==` compares the rows |
| SpreadSheet.SameCellsIsRowEquality | lib/sycsvpro/spread_sheet.rb:154-163 | `==` is reflexive and compares exactly the contents |

## Left out

- File I/O: opening, reading and writing files. Each tool takes the lines
  of its input and returns the lines it would write.
- The `profile`, `dsl`, `script_creator`, `script_list`, `inserter`,
  `calculator`, `extractor` and `spread_sheet_builder` files are not part
  of this model.
- Regular expressions, `pivot_each_column`, `unstring`, `scan`,
  `split_by_comma_regex`, `to_f` and `Date.strptime`: parameters of
  `Externals.Env`, left uninterpreted.
- Compiling filter strings into positions, patterns and pivots is not
  modelled. A filter is its compiled `Externals.Selector`; only the clause
  shapes of filter.rb are modelled.
- The `eval`-driven parts of `Table` (create_key, column formulas,
  `evaluate`) are given as parameters. So are the header object's line and
  columns.
- Floating-point arithmetic: floats are `real`, dates abstract, and the
  precision rounding of Table cells is not modelled.
- Table: row cells are modelled as integers.
- String#upcase is modelled for ASCII letters only.
- The texts of error messages are constants, not Ruby's exact wording.
- Sorter.TypedLe: orders values of different kinds by kind (nil, numbers,
  strings, dates), where Ruby's `sort` raises ArgumentError when an
  Integer meets a String.
- Join: join.rb:103 writes the Header object itself. The model takes the
  header line as a parameter of its configuration.
- Filter.Process: what the methods every Ruby object has (`p`, `puts`,
  `==`, ...) and Filter's own `max?`, `process` and `filter` return when a
  clause names them is the parameter `Filter.Methods`, not written out.
- SpreadSheet.Subset: the one-row sheet that `[]` builds from a slice of
  picked rows holds rows as cells, which a `Value` cannot; the model returns
  its cells (`Picked.Nested`), and sheet operations do not apply to it.
- ColumnTypeFilter.Process: the message "Error value, index" that
  column_type_filter.rb:27-31 prints when a date does not parse is not
  modelled; the model only yields the nil value.
- SpreadSheet.New: with the label options, spread_sheet.rb:226-235 shifts
  the label row off the argument list and the label cells off the caller's
  own row arrays, so the caller's arrays change. The model works on values
  and does not capture that mutation.
- Collector.Config: `cols` is always a string. Without the `cols` option,
  collector.rb:53 calls `split` on nil and `initialize` raises
  NoMethodError; that failure is not modelled.
- Text.EncodedAscii: works on characters, so a line whose bytes are not valid
  UTF-8 (which `invalid: :replace` also covers) cannot be written down.
