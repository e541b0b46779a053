# Reporter: spreadsheet layout and merge engine

Reporter turns a list of typed records into one spreadsheet sheet: title rows,
a table, one blank row, then footer rows. This project models the layout and
merge engine of that process in Dafny and proves properties of the model. The
engine covers these steps:

- Layering the header tree of column bindings. Each node gets its header row,
  the number of body columns it covers and the depth of its subtree.
- Emitting the header level by level, with one merged region per label.
- Flattening the leaves into the body's column list.
- Rendering the body row by row. Each column has a vertical-merge state machine
  driven by run-length lists. Point merges join a cell with its right
  neighbours. A typed formatter decides each cell's value and style.
- Rendering title and footer blocks, whose items cover rectangles of cells.
- The generic report, which derives one column binding per property of the
  row type, plus its title, print-date and footer rows.
- The base class's helpers:
  - the empty-column scan;
  - the builders of space strings and signer lines;
  - the sheet's print settings.
- The demonstration report, which has ten groups of ten people, a summary row
  after each group, and merges.

The workbook library is not modelled. In its place, `Grid.Sheet` records the
engine's requests in order:

- every cell it creates (a later cell at the same coordinate replaces an
  earlier one);
- every merged region it adds;
- the rows it creates, with their heights;
- the column widths it sets.

In the workbook, creating a row that already exists replaces that row and
drops its cells. The log keeps every cell. It matches the workbook only where
no row is created twice.

Each imperative routine of the source is a method on that sheet. Its `ensures`
equates the sheet afterwards with a pure specification function of the sheet
before the call. The properties are lemmas about those functions.

Anything that throws in the source is a failure flag in the model (`ok ==
false`, or the `fault` field of the state), and the failed state is kept. The
exceptions covered this way are:

- a missing dictionary key;
- an invalid cast;
- `Math.Round` with a digit count outside 0..15;
- `.Value` read on an absent merge count;
- `Max` over an empty binding list.

The formatter treats a number as an integer when `value == (int)value`. The
model requires a whole number within the 32-bit range.

The `(string)` cast of a boxed value (`ExportModels.AsString`) yields the
string for a string field and the null string for a null of any other type. A
null string writes a blank cell. A non-null value of another type is an
invalid cast.

## Model

| member | source | states |
|---|---|---|
| MergeMachine.Step | Reporter/Tools/NPOIExportTool.cs:389-414 | One merge step keeps the list's length and moves the pointer by at most one. Past the last entry, the cell is written, nothing is merged and nothing changes. |
| MergeMachine.GroupEffects | Reporter/Tools/NPOIExportTool.cs:391-413 | Reference plan for one entry `v` of a run-length list. It covers max(v,1) rows. Only its first and last rows are written. Only its first row opens a region, spanning v-1 further rows, and only when v > 1. |
| MergeMachine.EntryRegion | Reporter/Tools/NPOIExportTool.cs:391-413 | Within the rows that entry `p` occupies, a region starts exactly at the entry's first row when the entry exceeds 1, and spans entry-1 rows. Exactly the first and last of those rows are written. |
| MergeMachine.PositiveEntryDecremented | Reporter/Tools/NPOIExportTool.cs:394 | Rendering shortens a positive entry of the caller's list by exactly one, in place. |
| MergeMachine.EntryCounterNonPositive | Reporter/Tools/NPOIExportTool.cs:407-413 | The counter the machine holds when an entry becomes current is never positive, so every entry of at least 1 opens its group. |
| MergeMachine.StepTracks | Reporter/Tools/NPOIExportTool.cs:389-414 | A step from any state that agrees with the plan after `n` rows yields the plan's effect for row `n` and a state that agrees with the plan after n+1 rows. |
| MergeMachine.RunTracks | Reporter/Tools/NPOIExportTool.cs:389-414 | Started fresh and run for `n` rows, the machine stays in step with the plan: it sits on the entry that covers row `n`, and every effect so far is the plan's. |
| MergeMachine.MachineFollowsPlan | Reporter/Tools/NPOIExportTool.cs:389-414 | For every prefix of rows, the machine's decisions equal the reference plan's. The list left behind equals the plan's rendered list. |
| MergeMachine.ExhaustedColumnIsInert | Reporter/Tools/NPOIExportTool.cs:389 | Once all entries are used up, the machine never changes again and writes every cell unmerged. |
| TableRenderer.MergeStep | Reporter/Tools/NPOIExportTool.cs:389-414 | Imperative merge step. Its new state, new list and print decision are those of `Step`. It adds the region the step decides, and only that region, to the sheet. |
| TableRenderer.RenderValue | Reporter/Tools/NPOIExportTool.cs:416-588 | One cell after its merge step: the point-merge check, then the merged text, an empty cell or the formatted cell. The result equals the specification `WriteCell`. At most one cell is appended, at this row and column. |
| TableRenderer.RenderCell | Reporter/Tools/NPOIExportTool.cs:383-589 | Column `k` of a data row takes the sheet from the state after k columns to the state after k+1 columns, both in the specification and in the machines. |
| TableRenderer.RenderCells | Reporter/Tools/NPOIExportTool.cs:383-591 | All columns of one row equal the specification `PutCells`. On success the machine state equals `MachineRow`. The new cells keep the earlier ones as a prefix, lie on this row in column order and number at most one per column. |
| TableRenderer.RenderRow | Reporter/Tools/NPOIExportTool.cs:370-591 | One data row: the row is created and its cells rendered. The result equals `PutRow`, under the same guarantees on cells and machines. |
| TableRenderer.RenderNext | Reporter/Tools/NPOIExportTool.cs:368-595 | Rendering data row `i` extends the specification and the machine state for i rows to those for i+1 rows. |
| TableRenderer.RenderBody | Reporter/Tools/NPOIExportTool.cs:368-595 | The body equals `PutDataRows`. On success the row cursor has advanced by one per data row. The run-length store left behind is the machines' store after all rows. Column widths are untouched. |
| TableRenderer.PointMergeAt | Reporter/Tools/NPOIExportTool.cs:417-419 | A point merge found for this row and column is one of the column's directives, at exactly that row and column. |
| TableRenderer.PointMergeAtComplete | Reporter/Tools/NPOIExportTool.cs:417-419 | No point merge is found exactly when none of the column's directives is anchored at this row and column. Otherwise the directive found is the first one anchored there. |
| TableRenderer.WriteCellShape | Reporter/Tools/NPOIExportTool.cs:416-588 | One column writes at most one cell, at the cursor's column. The cursor moves past exactly the cells written. Cells and regions are only appended. The one region a column can add is one row high and starts at the cursor. A failure is never undone. |
| TableRenderer.PointMergeStarts | Reporter/Tools/NPOIExportTool.cs:416-440 | A point merge at this cell adds a one-row region over mergeColumnCount+1 columns and writes the anchor's value cast to text here, blank for a null. The following mergeColumnCount cells are set to continue that text. |
| TableRenderer.PointMergeContinues | Reporter/Tools/NPOIExportTool.cs:427-441 | While a point merge is pending, the cell gets the anchor column's text, whatever its own value and merge decision. |
| TableRenderer.PointMergeNeedsText | Reporter/Tools/NPOIExportTool.cs:416-440 | A point merge fails when its anchor value is missing from the row, or is a non-null value of a type other than string, because of the string cast. A null anchor of any type is written blank (see `PointMergeStarts`). |
| TableRenderer.SuppressedCellIsEmptyText | Reporter/Tools/NPOIExportTool.cs:580-588 | A cell covered by a vertical merge and by no point merge is an empty text cell in the string style. |
| TableRenderer.MachineRowColumn | Reporter/Tools/NPOIExportTool.cs:383-414 | Within one row, a column that is the only one on its leaf sees exactly one merge step, on its own leaf's list. |
| TableRenderer.ColumnFollowsPlan | Reporter/Tools/NPOIExportTool.cs:368-414 | Across rows, the merge decision of a column that is the only one on its leaf, at data row `r`, is the reference plan's effect for row `r`. Its list after `r` rows is the plan's rendered list. |
| TableRenderer.SharedLeafShortensMerge | Reporter/Tools/NPOIExportTool.cs:389-414 | Two columns of one leaf share its list. The second column sees the entry the first already decremented, so its region is one row shorter. |
| TableRenderer.CellsAfterFault | Reporter/Tools/NPOIExportTool.cs:383-591 | Once a cell fails, the later columns of the row change nothing. |
| TableRenderer.DataRowsAfterFault | Reporter/Tools/NPOIExportTool.cs:368-595 | Once a row fails, the later rows change nothing. |
| TableRenderer.FormattedCell | Reporter/Tools/NPOIExportTool.cs:444-588 | Take the export's formatter, and a cell outside any point merge that the merge machine writes. The cell is what `FormatValue` decides for the row's value. A cell is placed at the cursor, and the cursor moves one column on. A type the formatter does not handle gives no cell and no move. Otherwise the row fails. |
| ValueFormat.ZeroAsBlank | Reporter/Tools/NPOIExportTool.cs:458-571 | On the number path, with "show empty if zero" set, a zero becomes the column's empty string. The cell is in the string style for numeric text and the integer style otherwise. |
| ValueFormat.IntegralIsIntegerCell | Reporter/Tools/NPOIExportTool.cs:464-577 | An int, or a whole number in 32-bit range in a column without decimal places, is written unrounded as a number in the integer style. |
| ValueFormat.OtherNumbersRounded | Reporter/Tools/NPOIExportTool.cs:470-561 | Every other number is rounded half away from zero to the column's decimal places (2 when unset). It gets the integer style only for 0 places, otherwise the decimal style. A place count outside 0..15 fails. |
| ValueFormat.PlainText | Reporter/Tools/NPOIExportTool.cs:480-485 | Text that does not parse, or sits in a column that does not treat text as numbers, is written as text in the string style. |
| ValueFormat.OverrideAndUnhandled | Reporter/Tools/NPOIExportTool.cs:446-578 | A column style override writes the raw value cast to text. A string is written as it is. A null of any type gives a blank cell. A non-null value of any other type fails the cast. Without an override, a value of an unhandled type writes no cell. |
| ValueFormat.NonZeroIgnoresBlankFlag | Reporter/Tools/NPOIExportTool.cs:458-566 | "Show empty if zero" changes nothing for values other than zero. |
| ValueFormat.NumberCellsOnlyOnNumberPath | Reporter/Tools/NPOIExportTool.cs:444-578 | A numeric cell is only ever produced on the number path, and always in the integer or decimal style. |
| ValueFormat.FormatValue | Reporter/Tools/NPOIExportTool.cs:444-578 | No cell is written exactly when the column has no style of its own and the value's type is unhandled. A failure has one of two causes. Either a non-null, non-string value is cast to a string under a column style, or a number on the number path has a digit count outside 0 to 15. |
| ValueFormat.NumberCell | Reporter/Tools/NPOIExportTool.cs:458-578 | A number always gives a cell or a failure. It fails exactly when all three hold: it is not a zero shown as blank, it is not a whole number kept unrounded, and its digit count (2 when unset) is outside 0 to 15. A number cell in the integer style holds a whole number. |
| ValueFormat.RoundAwayIsNearest | Reporter/Tools/NPOIExportTool.cs:472-478 | Rounding to `p` places lands on a multiple of 10^-p within half a unit of the value. |
| ValueFormat.RoundAwayOdd | Reporter/Tools/NPOIExportTool.cs:472-478 | Rounding half away from zero is symmetric: rounding -x gives minus the rounding of x. |
| ValueFormat.RoundAwayExamples | Reporter/Tools/NPOIExportTool.cs:472-478 | Halves go away from zero: 0.375 to 0.38, 2.5 to 3, -2.5 to -3, 0.125 to 0.13. Every example is exact in binary floating point. |
| BlockRenderer.FillTitle | Reporter/Tools/NPOIExportTool.cs:260-325 | The title or footer block equals the specification `PutRows` in the default title or footer style. On success the row cursor advances by exactly one per title row. Column widths are untouched. |
| BlockRenderer.FillRow | Reporter/Tools/NPOIExportTool.cs:265-321 | One title row equals `PutItems`: its items are laid out left to right from column 0. |
| BlockRenderer.FillItem | Reporter/Tools/NPOIExportTool.cs:270-318 | One item equals `PutItem`. The next item starts right after the item's last column. |
| BlockRenderer.FillRect | Reporter/Tools/NPOIExportTool.cs:295-315 | Filling an item's rectangle equals `FillRows`. Each row is created once, with the row height. |
| BlockRenderer.FillLine | Reporter/Tools/NPOIExportTool.cs:308-312 | One rectangle row appends exactly the empty cells from the start to the end column, and changes nothing else. |
| BlockRenderer.ItemShape | Reporter/Tools/NPOIExportTool.cs:272-317 | An item adds a region only when a count is positive, although its rectangle uses the absolute counts. It fills the rectangle with empty cells, then writes its text at the anchor. Every row of the rectangle exists afterwards. |
| BlockRenderer.ItemLayout | Reporter/Tools/NPOIExportTool.cs:295-316 | An item's new cells are its rectangle's empty cells in row-major order, followed by its text at the top-left anchor. |
| BlockRenderer.RowFails | Reporter/Tools/NPOIExportTool.cs:275-317 | A title row fails exactly when one of its items sets a row count without a column count, because `.Value` is read on the absent column count. The row's items end at the sum of their widths. |
| BlockRenderer.RowLayout | Reporter/Tools/NPOIExportTool.cs:275-292 | A title row's new regions are one per merging item. Each starts on this row and lies within the row's width. |
| BlockRenderer.BlockFails | Reporter/Tools/NPOIExportTool.cs:260-325 | A block fails exactly when some item of some row sets a row count without a column count. |
| BlockRenderer.FillRowsShape | Reporter/Tools/NPOIExportTool.cs:298-315 | A rectangle adds only its empty cells and creates the missing rows of its span with the title row's height. A row created earlier keeps its height. |
| BlockRenderer.BlanksAt | Reporter/Tools/NPOIExportTool.cs:298-315 | Empty cell `k` of a rectangle `w` columns wide is at row offset k / w and column offset k % w. |
| BlockRenderer.RowsAfterFault | Reporter/Tools/NPOIExportTool.cs:265-322 | After a failing title row, the later rows change nothing. |
| HeaderEmitter.CreateHeadRow | Reporter/Tools/NPOIExportTool.cs:643-731 | The header emitter appends exactly the specified header cells and regions, sets the specified column widths and creates the specified rows, level after level. |
| HeaderEmitter.EmitLevel | Reporter/Tools/NPOIExportTool.cs:650-726 | One level writes its nodes' cells, regions and widths left to right. It reports whether any node has children, and the next level: children, or a same-width placeholder per leaf. |
| HeaderEmitter.EmitNode | Reporter/Tools/NPOIExportTool.cs:656-723 | One node adds its region (a leaf down to the last header row, an inner node across its columns) and its label followed by empty cells. It sets the width of each of its columns. |
| HeaderEmitter.NextLevelShrinks | Reporter/Tools/NPOIExportTool.cs:727-730 | When some node has children, the next level is strictly shallower, so the recursion ends. |
| HeaderEmitter.NextLevelHeight | Reporter/Tools/NPOIExportTool.cs:652-673 | The next level's depth is the current depth minus one, and never below one. |
| HeaderEmitter.AnyChildrenHeight | Reporter/Tools/NPOIExportTool.cs:653-730 | The emitter goes on exactly while the level is deeper than one row. |
| HeaderEmitter.NextLevelColumns | Reporter/Tools/NPOIExportTool.cs:664-675 | Placeholders keep every level as wide as the table. The next level is consistent and covers the same columns. |
| HeaderEmitter.HeadCellsGrid | Reporter/Tools/NPOIExportTool.cs:643-731 | For a consistent layered tree, the header is a full grid: depth times width cells, in row-major order from the first header row. |
| HeaderEmitter.LevelCellsAt | Reporter/Tools/NPOIExportTool.cs:694-720 | Column `j` of node `i` holds the node's label when j is 0 and the node is real, and empty text otherwise, in the node's header style. |
| HeaderEmitter.LevelCellsLayout | Reporter/Tools/NPOIExportTool.cs:694-723 | A level writes one cell per column, left to right from column 0, all on the level's row. |
| HeaderEmitter.NodeRegion | Reporter/Tools/NPOIExportTool.cs:677-693 | A node adds at most one region, and a placeholder adds none. The region starts at the node's row and first column and spans the node's columns. It is never a single cell. An inner node's region is one row high. A leaf's region reaches down to the last header row. |
| HeaderEmitter.HeadRegionsRows | Reporter/Tools/NPOIExportTool.cs:677-693 | Every header region starts on a header row, and is either one row high or reaches down to the last header row. |
| HeaderEmitter.HeadRowsCreated | Reporter/Tools/NPOIExportTool.cs:645-648 | Exactly the header rows are created, with the default height. Other rows keep theirs. |
| Layering.BuildLayerInfo | Reporter/Models/ReportSheetCreater.cs:168-196 | The layering pass on one node returns the specified annotated tree. |
| Layering.LayerRoots | Reporter/Models/ReportSheetCreater.cs:48-51 | Each root binding is laid out from header row 1. |
| Layering.LeafLayout | Reporter/Models/ReportSheetCreater.cs:171-177 | A leaf sits on its row, covers one column per data name, has no rows below it, and its deepest row is its own. |
| Layering.InnerLayout | Reporter/Models/ReportSheetCreater.cs:178-195 | An inner node sits on its row, its children one row lower. It covers the sum of their columns and reaches their deepest row, with at least one row below it. |
| Layering.LayerMaxRow | Reporter/Models/ReportSheetCreater.cs:171-195 | A node's deepest row is its row plus its subtree's height minus one. |
| Layering.LayerColumns | Reporter/Models/ReportSheetCreater.cs:171-189 | A node covers exactly as many columns as its subtree has data names. |
| Layering.LayerKeepsContent | Reporter/Models/ReportSheetCreater.cs:168-196 | Layering changes only the four layout fields. Labels, data names and settings are kept. |
| Layering.LayerIdempotent | Reporter/Models/ReportSheetCreater.cs:168-196 | Laying out an already laid-out tree again changes nothing. |
| Layering.LayerConsistent | Reporter/Models/ReportSheetCreater.cs:178-189 | After layering, every inner node's column count is the sum of its children's counts, at every depth. |
| Layering.RootTotals | Reporter/Models/ReportSheetCreater.cs:48-52 | The table's width is the number of data names of all leaves. Its header depth is the tree's height. The laid-out forest is consistent. |
| DataNames.BuildDataNameOfDataBinding | Reporter/Tools/NPOIExportTool.cs:738-767 | The column list gains one column per data name of every leaf, leaves taken depth first, left to right. The leaf counter advances by the number of leaves. |
| DataNames.AppendNode | Reporter/Tools/NPOIExportTool.cs:740-745 | A node contributes the columns of its own leaves, in order. |
| DataNames.AppendLeaf | Reporter/Tools/NPOIExportTool.cs:748-763 | A leaf contributes one column per data name, each carrying the leaf's settings. |
| DataNames.DataNamesCount | Reporter/Tools/NPOIExportTool.cs:738-767 | The body has as many columns as the leaves have data names. |
| DataNames.NamesOfFromLeaves | Reporter/Tools/NPOIExportTool.cs:748-762 | Every column refers to a real leaf, carries that leaf's settings, and names one of its data names. |
| DataNames.ColumnsShareLeafRuns | Reporter/Tools/NPOIExportTool.cs:750-762 | Every column's run-length list is its leaf's list, and its point merges are its leaf's. |
| DataNames.NamesInLeafOrder | Reporter/Tools/NPOIExportTool.cs:740-767 | The columns' names are the leaves' data names, concatenated in order. |
| DataKeys.AsWrittenOrdinaryName | Reporter/Tools/NPOIExportTool.cs:357-387 | For a non-empty data name without "___", the lookup key reads back to the data name. |
| DataKeys.AsWrittenCounterexamples | Reporter/Tools/NPOIExportTool.cs:357-387 | As written, the key of "a___b" reads back as "a", and the key of the empty name reads back to nothing, so indexing throws. |
| DataKeys.PureNameAsWritten | Reporter/Tools/NPOIExportTool.cs:387 | As written, a name read back from a key is never empty, because empty pieces are dropped. `AsWrittenOrdinaryName` and `AsWrittenCounterexamples` state which name that is. |
| DataKeys.ParseKeyRoundTrip | Reporter/Tools/NPOIExportTool.cs:357 | A key read back at its first separator after the leading digits gives exactly the column number and the data name, for every data name. |
| DataKeys.KeysDistinct | Reporter/Tools/NPOIExportTool.cs:357-358 | Keys built from different column numbers or names differ, so the merge-state dictionary never receives a duplicate key. |
| DataKeys.DecimalRoundTrip | Reporter/Tools/NPOIExportTool.cs:357 | The decimal text of the column number reads back to the number. |
| SheetLayout.ExportSheet | Reporter/Tools/NPOIExportTool.cs:229-235 | A sheet is the titles from row 0, then the table, one blank row and the footers. The sheet equals `SheetOf`, and the result reports whether any part failed. |
| SheetLayout.FillTable | Reporter/Tools/NPOIExportTool.cs:335-600 | The table equals `TableOn`: the header, then the body when there are data rows. An empty binding list fails. On success the leaves' lists are the machines' lists after all rows. |
| SheetLayout.FillBound | Reporter/Tools/NPOIExportTool.cs:339-597 | For a non-empty binding list: the header of the deepest binding's height, then the body, as in `TableOn`. |
| SheetLayout.FillBody | Reporter/Tools/NPOIExportTool.cs:348-597 | The body starts with a fresh merge state per column and the leaves' own lists, and equals `PutDataRows`. |
| SheetLayout.SheetRows | Reporter/Tools/NPOIExportTool.cs:229-235 | A sheet that succeeds has a binding. It uses titles + header depth + data rows + 1 + footers rows. |
| SheetLayout.NoBindingFails | Reporter/Tools/NPOIExportTool.cs:339 | A sheet without bindings fails, because the maximum is taken over an empty list. |
| SheetLayout.LeafListAfterRendering | Reporter/Tools/NPOIExportTool.cs:389-414 | After rendering, the list of a leaf with a single column is the reference plan's rendered list: the caller's list shortened in place. |
| SheetCreator.EmptyColumnDic | Reporter/Models/ReportSheetCreater.cs:80-128 | The scan maps every property to "has a value". That holds exactly when there are no rows, or the property is ignored or has no detector, or some row's value is not empty by its detector. |
| SheetCreator.ScanRowInto | Reporter/Models/ReportSheetCreater.cs:98-126 | Scanning one more row updates every property's conclusion to the one for the longer prefix of rows. |
| SheetCreator.SeenStep | Reporter/Models/ReportSheetCreater.cs:100-124 | A property once found non-empty stays so. Otherwise a row decides it by the ignore list, the detector's absence or a non-empty value. |
| SheetCreator.DetectorCases | Reporter/Models/ReportSheetCreater.cs:137-161 | Null, empty and white-space text count as empty; text with any other character does not. The int and decimal detectors call exactly zero empty. A value whose type has no detector is never empty. |
| SheetCreator.CreateSpaces | Reporter/Models/ReportSheetCreater.cs:265-277 | The result is exactly `count` spaces, and empty when `count` is not positive. |
| SheetCreator.Repeat | Reporter/Models/ReportSheetCreater.cs:265-277 | `n` copies of a character, none when `n` is not positive. |
| SheetCreator.CreateSingerFooter | Reporter/Models/ReportSheetCreater.cs:418-429 | The signers are joined by `fullSpaceCounts` ideographic spaces. |
| SheetCreator.JoinSplit | Reporter/Models/ReportSheetCreater.cs:428 | The joined line splits at any signer boundary into the two joined halves with one separator between them. |
| SheetCreator.JoinLength | Reporter/Models/ReportSheetCreater.cs:428 | The joined line's length is the signers' lengths plus one separator between each pair. |
| GenericReport.Report.constructor | Reporter/Models/Reporter.cs:31-41 | The report keeps its parameters, replaces null merge dictionaries by empty ones, and ends bound. |
| GenericReport.Report.BindAllData | Reporter/Models/ReportSheetCreater.cs:44-59 | The row count is the data's length. The column total is the laid-out bindings' width. The sheet receives the data, the laid-out bindings, the titles and the footers. |
| GenericReport.Report.SetupTableBinding | Reporter/Models/Reporter.cs:56-114 | One binding per property, as `Bindings` defines. |
| GenericReport.Report.SetupTitle | Reporter/Models/Reporter.cs:119-159 | One title row per title string (none for a null list), then the print-date row when it is shown. |
| GenericReport.Report.SetupFooter | Reporter/Models/Reporter.cs:165-185 | One footer row per footer string, none for a null list. |
| GenericReport.Report.SetSheet | Reporter/Models/ReportSheetCreater.cs:227-234 | Print orientation defaults to portrait and paper size to 9 (A4). |
| GenericReport.ColumnBinding | Reporter/Models/Reporter.cs:85-111 | Each property's binding is a leaf whose one data name is the property's own name. |
| GenericReport.BindingRules | Reporter/Models/Reporter.cs:67-111 | A property's binding has these values: its description or else its name as the label; its name as the one data name; its width attribute or 30; the report's zero flag; right alignment exactly for numbers; two decimal places exactly for non-integer numbers; its merge lists, or empty ones when missing or null. |
| GenericReport.TableShape | Reporter/Models/Reporter.cs:56-114 | A report's table has one header row and one body column per property, in declaration order. Each column has its own run-length list and point merges. |
| GenericReport.TitlesSpanTable | Reporter/Models/Reporter.cs:119-185 | Every title, print-date and footer row has one item spanning the whole table width. None fails, and each merges exactly when the table is wider than one column. |
| GenericReport.PrintDateReadsBack | Reporter/Models/Reporter.cs:148 | The print-date text reads back to the Republic of China year (the Gregorian year minus 1911), the two-digit month and the two-digit day. |
| GenericReport.TwoDigitsRoundTrip | Reporter/Models/Reporter.cs:148 | Month and day are written with exactly two digits that read back to the number. |
| Demo.GetData | Reporter/Program.cs:112-128 | The demonstration data: one hundred people, person `i` in group (i-1)/10+1. |
| Demo.GetDataParameter | Reporter/Program.cs:31-107 | Without merging, the parameter holds the plain data. With merging, every group is followed by its summary row. The ID column gets one point merge per group. The Organization column gets the extended list's group sizes as run lengths. |
| Demo.DemoGroups | Reporter/Program.cs:112-128 | The data has exactly ten groups, in order, each ten consecutive people. |
| Demo.KeysOfMembers | Reporter/Program.cs:42 | The groups are exactly the organizations that occur: every row's organization is a group, and every group is some row's organization. |
| Demo.KeysDistinct | Reporter/Program.cs:42 | No group is listed twice. |
| Demo.GroupOfIsIn | Reporter/Program.cs:42 | Every member of a group has the group's organization. |
| Demo.CountsCoverRows | Reporter/Program.cs:78 | Every group's count is at least 1, and the group sizes add up to the number of rows, so each row is counted exactly once. |
| Demo.ExtendedCounts | Reporter/Program.cs:42-79 | After summary rows are added, the groups stay the same and each run length is the group size plus one. |
| Demo.SummaryRows | Reporter/Program.cs:49-67 | Each point merge's row, less the four rows of titles, print date and header, is its group's summary row, with ID and Name merged. |
| Demo.DemoRunLengths | Reporter/Program.cs:76-79 | With merging, every Organization run length is 11. |
| Demo.DemoPointMerges | Reporter/Program.cs:59-67 | With merging, there are 110 data rows, and the point merges sit at sheet rows 14, 25, ..., 113. |
| Demo.DemoLayout | Reporter/Program.cs:85-104 | The demonstration table has four columns and one header row below the two titles and the print date. Organization and ID carry the requested run lengths and point merges. |

## Left out

- Workbook I/O, styles, fonts, print setup and formula evaluation are not modelled. The workbook is the `Grid.Sheet` log; a style is an opaque handle; column and row font sizes, cell alignment overrides and `_SetDataCellOtherParameters` are outside the model.
- Exporter registration (`AddSheet`, `AddSheetList`, `Reset`) and the export of several sheets are left out. `ExportSheet` renders one sheet.
- Reflection is replaced by an explicit list of properties for the row type, and a row by a map from property name to typed value.
- The clock is a parameter (`today`), and `double.TryParse` is a parameter (`parse`).
- Re-creating a row drops that row's earlier cells in the workbook, and the log keeps them. A title item whose row count reaches into the header rows is such a case: `CreateRow` at Reporter/Tools/NPOIExportTool.cs:647 then replaces a row that line 302 already created.
- Numbers are exact. IEEE double, float and decimal rounding errors and conversions are not modelled.
- `Layering.BuildLayerInfo` returns the annotated tree instead of updating shared nodes in place. A binding object reachable from two places is not modelled.
- The run-length list that a leaf shares with its columns is modelled as a store indexed by leaf. Aliasing of one list between two different leaves is not modelled.
- `SetupTitle` and `SetupFooter` also write the empty list back into the report's null title or footer list. The model keeps the list as given and reads a null list as empty.
- `SheetCreator.EmptyColumnDic` requires distinct property names, which reflection guarantees, and rows holding a value of the declared type for every property.
- Null binding lists, null title items and null rows are not modelled. Null strings are modelled (`Option<string>`), and so are null values of the other unhandled types (`OtherField`'s null flag). Null values of `int`, `decimal`, `double` and `float` cannot occur.
- `Math.Abs(int.MinValue)` throwing, and 32-bit wrap-around of row and column arithmetic, are not modelled: integers are unbounded.
- Out-of-range `(int)` casts of numbers are read as "not equal to the cast value". The platform-dependent result of such a cast is not modelled.
- The theme-specific report parameter models (A3/A4 layouts and their cell styles) are left out; they only configure fonts and styles.
- The body renderer looks a property up by the column's own data name, which is what the corrected key reading recovers. See Findings.

## Findings

| source | as written | input that shows it | evidently intended | confidence | as-written member | corrected member |
|---|---|---|---|---|---|---|
| Reporter/Tools/NPOIExportTool.cs:357-387 | The data name is recovered by splitting the key `"<n>___<name>"` on every `"___"`, dropping empty pieces and taking the second piece. | The data name `"a___b"` gives key `"0___a___b"` and reads back as `"a"`. The empty data name gives `"0___"` and has no second piece, so indexing throws. | Reading the key back yields the column's own data name for every data name. | not executed | DataKeys.AsWrittenCounterexamples | DataKeys.ParseKeyRoundTrip |
