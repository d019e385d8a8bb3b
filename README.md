# Devices report, modelled in Dafny

This project models `DevicesReportProvider` from a Traccar fork. That class builds an Excel report with three parts:

- a block of rows for every non-administrator user, listing the devices granted directly to that user;
- each device cell coloured by whether that device id has already been written somewhere earlier in the report;
- a total row holding the number of distinct devices and their cost at 60 RSD each.

The model reproduces the source's steps in order, and it proves those steps produce a report specified separately, cell by cell.

- `ReportModel`: users, devices and the (user, devices) item.
- `CellStyles`: `applyCellStyle` and `setBorderStyle` as a pure function of role, top flag, bottom flag and already-written flag. The result is a plain style record: borders, fill pattern, fill colour and font size.
- `Workbook`: a sheet is a map from row index to row. A row is a map from column index to cell, and a cell is a value plus an optional style.
- `Decimal`: Java `int` wrap-around and the decimal text of an `int`, with a round trip proof.
- `ReportLayout`: the specification. It defines which users and devices appear, the registry that `countDevices` fills, and where each block starts. `BlockRow` gives every row of a block, and `ReportLaidOut` gives the finished sheet. The lemmas about the layout live here too.
- `DevicesReportProvider`: the source's methods as imperative Dafny. Loops carry `rowId` and the already-written id list; methods rebuild the sheet value row by row. Each method is proved against `ReportLayout`.
- `ReportScenarios`: one concrete run, with an administrator plus two users who share a device, and two block-level cases. One case is a user with no devices; the other is a block holding a single device.

Storage is a parameter `fetch: User -> seq<Device>`: the devices a user is granted directly, not through groups. When a run ends in fewer than two data rows, row 2 never exists. The source then dereferences a null row in `createTotal`; the model returns `Err(MissingTotalRow)` instead. `CreateExcel` and `GetDevicesInfo` state exactly when this happens.

## Model

| member | source | states |
|---|---|---|
| DevicesReportProvider.GetDevicesInfo | src/main/java/org/traccar/reports/DevicesReportProvider.java:36-53 | the run fails exactly when the non-administrator blocks fill fewer than two rows; otherwise the sheet is the laid-out report of the non-administrator users in storage order, with the total over their distinct device ids |
| DevicesReportProvider.CollectUserDevices | src/main/java/org/traccar/reports/DevicesReportProvider.java:37-50 | the items are the non-administrator users in storage order, each paired with the devices storage grants it; the registry is exactly the one built by putting every fetched device under its id, user by user and in list order (`RegisteredAll`), so its keys are exactly the ids of those devices and each key maps to a device with that id |
| DevicesReportProvider.CountDevices | src/main/java/org/traccar/reports/DevicesReportProvider.java:195-197 | the registry after the loop is the one obtained by putting every device under its id, in list order |
| DevicesReportProvider.CreateExcel | src/main/java/org/traccar/reports/DevicesReportProvider.java:55-89 | fails exactly when the blocks end before row 2; otherwise the sheet has rows 0 to the last data row and no others: the header in row 0, every block row where the layout puts it, and the total written into row 2 |
| DevicesReportProvider.WriteUserBlock | src/main/java/org/traccar/reports/DevicesReportProvider.java:67-85 | one pass of the user loop appends exactly `Height(item)` rows, all matching the block's specification; earlier rows are unchanged; the written list gains the block's device ids in order |
| DevicesReportProvider.WriteLaterRows | src/main/java/org/traccar/reports/DevicesReportProvider.java:78-85 | the inner device loop writes rows 1 to n-1 of the block; each device is styled against every id written before it, its own block included |
| DevicesReportProvider.CreateHeader | src/main/java/org/traccar/reports/DevicesReportProvider.java:183-193 | row 0 becomes the header row; every other row is unchanged |
| DevicesReportProvider.CreateTotal | src/main/java/org/traccar/reports/DevicesReportProvider.java:162-181 | fails exactly when row 2 is missing; otherwise only row 2 changes, and it becomes `WithTotal` of its old contents |
| ReportLayout.NonAdmins | src/main/java/org/traccar/reports/DevicesReportProvider.java:37-40 | a user is kept if and only if it is in the input and is not an administrator |
| ReportLayout.NonAdminsAppend | src/main/java/org/traccar/reports/DevicesReportProvider.java:37-40 | filtering a concatenation gives the concatenation of the filtered parts, so storage order is kept |
| ReportLayout.RegisteredProperties | src/main/java/org/traccar/reports/DevicesReportProvider.java:195-197 | putting devices adds exactly their ids; each added id maps to one of the listed devices with that id; other keys keep their device |
| ReportLayout.RegisteredLastWins | src/main/java/org/traccar/reports/DevicesReportProvider.java:195-197 | when several devices share an id, the registry keeps the last one put |
| ReportLayout.RegistrySizeIsDistinctDevices | src/main/java/org/traccar/reports/DevicesReportProvider.java:44-50 | the registry's keys are exactly the set of ids among all device cells of the report, so a shared device is one key |
| ReportLayout.DeviceIdsAreEmitted | src/main/java/org/traccar/reports/DevicesReportProvider.java:44-50 | the device ids of the first n items are the set of ids the first n blocks write |
| ReportLayout.CheckIndex | src/main/java/org/traccar/reports/DevicesReportProvider.java:91-96 | for the first device (null): true exactly when the list has one device; for a later device: true exactly when the device is at the last position and nowhere before it (an empty list also passes, since `indexOf` then returns -1 == size - 1) |
| ReportLayout.IndexOf | src/main/java/org/traccar/reports/DevicesReportProvider.java:95 | -1 exactly when the device is absent; otherwise the position of the first occurrence |
| ReportLayout.BottomIsLastWhenDistinct | src/main/java/org/traccar/reports/DevicesReportProvider.java:91-96 | in a list without repeats, the bottom flag is set exactly on the last device |
| ReportLayout.RepeatedDeviceIsNotBottom | src/main/java/org/traccar/reports/DevicesReportProvider.java:91-96 | a device equal to an earlier entry never gets the bottom flag, because `indexOf` finds the earlier copy |
| ReportLayout.Height | src/main/java/org/traccar/reports/DevicesReportProvider.java:66-86 | a block has max(1, n) rows for n devices |
| ReportLayout.StartsIncrease | src/main/java/org/traccar/reports/DevicesReportProvider.java:65-86 | every block ends no later than any later block starts |
| ReportLayout.RowOwner | src/main/java/org/traccar/reports/DevicesReportProvider.java:65-86 | every data row of the first n blocks belongs to one of them, at an offset inside it |
| ReportLayout.RowsDisjoint | src/main/java/org/traccar/reports/DevicesReportProvider.java:65-86 | no two (block, offset) pairs share a row |
| ReportLayout.BlockColumns | src/main/java/org/traccar/reports/DevicesReportProvider.java:69-84 | the email opens the first row, with top and bottom set; later rows start blank; column 1 exists exactly when the user has devices; the device cell has a top border only on row 0 and a thick bottom exactly as `checkIndex` decides |
| ReportLayout.FirstBlockRow | src/main/java/org/traccar/reports/DevicesReportProvider.java:67-77 | the first row of a block is the email cell, then the first device (if any), with top set and bottom as `checkIndex(null, ...)` decides |
| ReportLayout.LaterBlockRow | src/main/java/org/traccar/reports/DevicesReportProvider.java:78-84 | a later row is a blank cell, then the device judged against every id written before it |
| ReportLayout.BlockRowsAppend | src/main/java/org/traccar/reports/DevicesReportProvider.java:79-84 | creating the next row of a block adds one row, keeps the block rows already written, and leaves every earlier row unchanged |
| ReportLayout.AppendRow | src/main/java/org/traccar/reports/DevicesReportProvider.java:199-203 | creating row n after rows 0 to n-1 adds exactly that row and changes no other |
| ReportLayout.WrittenPrefix | src/main/java/org/traccar/reports/DevicesReportProvider.java:77-84 | the already-written list only grows: what the first i blocks write is a prefix of what the first n write |
| ReportLayout.WrittenAtIsEmissionPrefix | src/main/java/org/traccar/reports/DevicesReportProvider.java:76-84 | the ids written before a device cell are exactly the report's emissions that precede it |
| ReportLayout.DuplicateExactlyAfterFirstEmission | src/main/java/org/traccar/reports/DevicesReportProvider.java:76-84 | a device cell gets the grey duplicate fill exactly when its id was emitted earlier, under any user including this one; the name is written either way |
| ReportLayout.BlocksLaidOutFrame | src/main/java/org/traccar/reports/DevicesReportProvider.java:66-86 | later writes that leave the rows before block i alone keep blocks 0 to i-1 laid out |
| ReportLayout.BlocksLaidOutExtend | src/main/java/org/traccar/reports/DevicesReportProvider.java:66-86 | adding all rows of block i to a sheet holding blocks 0 to i-1 gives blocks 0 to i |
| ReportLayout.TotalKeepsLayout | src/main/java/org/traccar/reports/DevicesReportProvider.java:87 | writing the total into row 2 of the laid-out sheet gives the finished report |
| ReportLayout.HeaderRow | src/main/java/org/traccar/reports/DevicesReportProvider.java:183-193 | the header has exactly columns 0 and 1, holding the literals "EMAIL" and "UREĐAJ" in their header styles |
| ReportLayout.BlanksAt | src/main/java/org/traccar/reports/DevicesReportProvider.java:165-167 | the loop's cells are blank exactly in columns lo to hi-1; every other column keeps its cell |
| ReportLayout.TotalRowContents | src/main/java/org/traccar/reports/DevicesReportProvider.java:162-181 | `WithTotal` has blanks in columns 2 to 7, has exactly the old columns plus columns 2 to 10, and keeps every cell outside columns 2 to 10 |
| ReportLayout.TotalRowCells | src/main/java/org/traccar/reports/DevicesReportProvider.java:168-179 | `WithTotal` puts "Total", the registry size and the cost text in columns 8, 9 and 10, each in the total style |
| ReportLayout.TotalCellsAt | src/main/java/org/traccar/reports/DevicesReportProvider.java:165-179 | blanking columns 2 to 7 and writing three cells into columns 8 to 10 keeps every other cell, and the row then holds exactly its old columns plus columns 2 to 10 |
| ReportLayout.CostText | src/main/java/org/traccar/reports/DevicesReportProvider.java:178 | the cost text ends in " RSD" |
| ReportLayout.CostTextReadsBack | src/main/java/org/traccar/reports/DevicesReportProvider.java:178 | the part before " RSD" is a signed decimal that reads back as the Java `int` value of size * 60 |
| ReportLayout.ReportIsDetermined | src/main/java/org/traccar/reports/DevicesReportProvider.java:55-89 | two sheets that both satisfy the finished-report specification for the same items and count are equal, so `CreateExcel`'s contract fixes the whole sheet |
| ReportLayout.CostIsExact | src/main/java/org/traccar/reports/DevicesReportProvider.java:178 | below 2^31 / 60 distinct devices, the cost text is the exact product followed by " RSD" |
| Decimal.JavaInt | src/main/java/org/traccar/reports/DevicesReportProvider.java:178 | the result lies in the `int` range, is congruent to the input modulo 2^32, and equals the input when the input is already in range |
| Decimal.NatToString | src/main/java/org/traccar/reports/DevicesReportProvider.java:178 | the result is decimal digits only, with no leading zero |
| Decimal.IntToString | src/main/java/org/traccar/reports/DevicesReportProvider.java:178 | a minus sign appears exactly for negative values; the rest is digits, with no leading zero in the magnitude (so never "-0") |
| Decimal.NatToStringRoundTrip | src/main/java/org/traccar/reports/DevicesReportProvider.java:178 | reading the digits back gives the number |
| Decimal.IntToStringRoundTrip | src/main/java/org/traccar/reports/DevicesReportProvider.java:178 | reading the text back gives the `int` |
| CellStyles.Tag | src/main/java/org/traccar/reports/DevicesReportProvider.java:24-26 | the three roles are exactly the tags "EMAIL", "UREĐAJ" and "TOTAL" |
| CellStyles.SetBorderStyle | src/main/java/org/traccar/reports/DevicesReportProvider.java:142-159 | a thick top only when `top` is set, otherwise no top border; the bottom is thick when `bottom` is set and dashed otherwise; left and right are always thick; all in the given colour |
| CellStyles.Palette | src/main/java/org/traccar/reports/DevicesReportProvider.java:100-125 | email: blue borders on sky blue in squares; fresh device and total: green on light green, solid; duplicate device: grey 80 on grey 25, solid |
| CellStyles.ApplyCellStyle | src/main/java/org/traccar/reports/DevicesReportProvider.java:98-129 | the top border is drawn exactly when `top`, and is then thick in the palette colour; the bottom is thick exactly when `bottom`; the sides and the fill follow the role's palette; the grey 25 fill appears exactly on device names already written; the font size is 12 |
| CellStyles.HeaderStyle | src/main/java/org/traccar/reports/DevicesReportProvider.java:190-191 | a header cell has a thick top, a dashed bottom and thick sides in its role's colour, the role's fresh fill pattern and colour, and font size 14 |
| CellStyles.ReadFlagsRoundTrip | src/main/java/org/traccar/reports/DevicesReportProvider.java:98-159 | the top, bottom and duplicate flags can be read back from the style |
| CellStyles.DuplicateFlagOnlyForDevices | src/main/java/org/traccar/reports/DevicesReportProvider.java:106-117 | the already-written flag changes the style exactly for device-name cells |
| ReportScenarios.SharedDeviceItems | src/main/java/org/traccar/reports/DevicesReportProvider.java:37-50 | with users [admin A, B, C], A is dropped; B's item comes before C's |
| ReportScenarios.SharedDeviceCount | src/main/java/org/traccar/reports/DevicesReportProvider.java:195-197 | D2, granted to both B and C, is counted once: the registry holds 2 devices |
| ReportScenarios.SharedBlocks | src/main/java/org/traccar/reports/DevicesReportProvider.java:65-86 | B's block starts at row 1 and C's at row 3; the data ends before row 4; ids 10 and 20 are written before C's block |
| ReportScenarios.SharedRow1 | src/main/java/org/traccar/reports/DevicesReportProvider.java:67-77 | row 1 holds B's email, then D1 with the fresh style, top set and bottom not set |
| ReportScenarios.SharedRow2 | src/main/java/org/traccar/reports/DevicesReportProvider.java:78-87 | row 2 holds a blank cell, then D2 (fresh, at the bottom of its block), with the total written into the same row |
| ReportScenarios.SharedRow3 | src/main/java/org/traccar/reports/DevicesReportProvider.java:67-77 | row 3 holds C's email, then D2 with the duplicate style |
| ReportScenarios.SharedDeviceSheet | src/main/java/org/traccar/reports/DevicesReportProvider.java:162-181 | the sheet has rows 0 to 3 and no others; the cost cell reads "120 RSD" |
| ReportScenarios.NoDevicesOneRow | src/main/java/org/traccar/reports/DevicesReportProvider.java:67-72 | a user without devices gets one row, holding only the email |
| ReportScenarios.SingleDeviceTopAndBottom | src/main/java/org/traccar/reports/DevicesReportProvider.java:91-94 | a lone device's cell is both the top and the bottom of its block |

## Left out

- Storage (`storage.getObjects` and the permission condition without groups) is the parameter `fetch`, a fixed function. `StorageException` and the query itself are not modelled.
- Writing the workbook to the output stream, and `IOException`, are left out: they are I/O.
- Apache POI objects are reduced to a map of cells with a plain style record. Left out: column widths (10000), row height (500), alignment (centred both ways), the font face (bold black Arial), and the sheet name.
- `DevicesReportProvider.CreateTotal` returns `Err` where the source throws `NullPointerException` on a missing row 2.
- Device equality in `indexOf` is value equality of the (id, name) record. The Java model class's `equals` is not part of this model, so Java identity comparison is not represented.
- Null emails and null device names are not represented: every email and name is a string.
- `ReportLayout.TotalRowCells`: the count cell holds the registry size as a mathematical integer. Java's `HashMap.size()` saturates at `Integer.MAX_VALUE`, which is not modelled.
- The `@Inject` constructor and the `ReportUtils` field are left out: the report logic never uses them.
- `UserDeviceItem.java` is the datatype `ReportModel.UserDeviceItem`. Its getters are its fields.
