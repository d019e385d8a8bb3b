/**
 * `DevicesReportProvider`: collects the non-administrator users with the
 * devices each may see, renders one block of rows per user, and writes the
 * distinct-device total. Storage is the parameter `fetch`, the devices
 * granted directly (not through groups) to a user; the workbook is a value
 * of type `Sheet` that the methods rebuild step by step.
 */
module DevicesReportProvider {
  import opened Wrappers
  import opened ReportModel
  import opened CellStyles
  import opened Workbook
  import opened ReportLayout

  /** The one way a run fails after storage: `getRow(2)` returns null when row 2 was never created. */
  datatype ReportError = MissingTotalRow

  /** `countDevices`: puts each device under its id, in list order. */
  method CountDevices(devices: seq<Device>, counted: map<Id, Device>) returns (r: map<Id, Device>)
    ensures r == Registered(counted, devices)
  {
    r := counted;
    var k := 0;
    while k < |devices|
      invariant 0 <= k <= |devices|
      invariant r == Registered(counted, devices[..k])
    {
      assert devices[..k + 1][..k] == devices[..k];
      r := r[devices[k].id := devices[k]];
      k := k + 1;
    }
    assert devices[..k] == devices;
  }

  /**
   * The first part of `getDevicesInfo`: drop administrators, then for each
   * remaining user, in order, fetch its devices, add them to the registry
   * and record the pair.
   */
  method CollectUserDevices(users: seq<User>, fetch: User -> seq<Device>)
    returns (items: seq<UserDeviceItem>, counted: map<Id, Device>)
    ensures items == ItemsFor(users, fetch)
    ensures |items| == |NonAdmins(users)|
    ensures forall k | 0 <= k < |items| :: items[k].user == NonAdmins(users)[k] && !items[k].user.administrator
    ensures forall k | 0 <= k < |items| :: items[k].devices == fetch(items[k].user)
    ensures counted == RegisteredAll(items)
    ensures counted.Keys == DeviceIds(items)
    ensures forall key | key in counted :: counted[key].id == key
  {
    var kept := NonAdmins(users);
    items, counted := [], map[];
    var i := 0;
    while i < |kept|
      invariant 0 <= i <= |kept|
      invariant items == ItemsFor(users, fetch)[..i]
      invariant counted == RegisteredAll(items)
      invariant counted.Keys == DeviceIds(items)
      invariant forall key | key in counted :: counted[key].id == key
    {
      var devices := fetch(kept[i]);
      RegisteredProperties(counted, devices);
      counted := CountDevices(devices, counted);
      var item := UserDeviceItem(kept[i], devices);
      assert (items + [item])[..|items|] == items;
      assert (items + [item])[..|items + [item]| - 1] == items;
      items := items + [item];
      i := i + 1;
    }
    assert ItemsFor(users, fetch)[..i] == ItemsFor(users, fetch);
    assert forall k | 0 <= k < |items| :: items[k].user in kept;
  }

  /** `createHeader`: row 0 with one labelled, styled cell per tag. */
  method CreateHeader(sheet: Sheet) returns (r: Sheet)
    ensures r == sheet[0 := HeaderRow()]
  {
    // createRow(0), then one cell per tag
    var row: Row := map[];
    var headers := [Email, DeviceName];
    var col: nat := 0;
    while col < |headers|
      invariant 0 <= col <= |headers|
      invariant forall c: nat :: c in row <==> c < col
      invariant forall c | 0 <= c < col :: row[c] == HeaderRow()[c]
    {
      row := row[col := Cell(Text(Tag(headers[col])), Some(HeaderStyle(headers[col])))];
      col := col + 1;
    }
    assert row == HeaderRow();
    r := sheet[0 := row];
  }

  /**
   * `createTotal`: fails when the sheet has no row 2; otherwise writes the
   * total cells into row 2 and leaves every other row as it was.
   */
  method CreateTotal(sheet: Sheet, counted: map<Id, Device>) returns (r: Result<Sheet, ReportError>)
    ensures r.Err? <==> TOTAL_ROW !in sheet
    ensures r.Ok? ==> r.value == sheet[TOTAL_ROW := WithTotal(sheet[TOTAL_ROW], |counted|)]
  {
    if TOTAL_ROW !in sheet {
      return Err(MissingTotalRow);
    }
    var row := sheet[TOTAL_ROW];
    var col: nat := 2;
    while col <= 7
      invariant 2 <= col <= 8
      invariant row == Blanks(sheet[TOTAL_ROW], 2, col)
    {
      row := row[col := BLANK];
      col := col + 1;
    }
    assert col == 8 && row == Blanks(sheet[TOTAL_ROW], 2, 8);
    row := row[col := TotalCell(Text("Total"))];
    col := col + 1;
    row := row[col := TotalCell(Number(|counted|))];
    col := col + 1;
    row := row[col := TotalCell(Text(CostText(|counted|)))];
    r := Ok(sheet[TOTAL_ROW := row]);
  }

  /**
   * One pass of the loop of `createExcel`: the block of `item` from row
   * `rowId` on, each device cell styled by whether its id is in `written`,
   * which gains the block's device ids in order.
   */
  method WriteUserBlock(sheet: Sheet, rowId: nat, written: seq<Id>, item: UserDeviceItem)
    returns (sheet': Sheet, rowId': nat, written': seq<Id>)
    requires HasRows(sheet, rowId)
    ensures rowId' == rowId + Height(item)
    ensures written' == written + Ids(item.devices)
    ensures HasRows(sheet', rowId')
    ensures forall r: nat | r < rowId :: sheet'[r] == sheet[r]
    ensures BlockRowsHold(sheet', rowId, item, written, Height(item))
  {
    var devices := item.devices;
    FirstBlockRow(item, written);
    // createRow(rowId++), then the email cell in column 0
    var row: Row := map[];
    row := row[0 := Cell(Text(item.user.email), Some(ApplyCellStyle(Email, true, true, false)))];
    if |devices| == 0 {
      BlockRowsAppend(sheet, rowId, item, written, 0, row);
      sheet', rowId', written' := sheet[rowId := row], rowId + 1, written;
      return;
    }
    var first := devices[0];
    var style := ApplyCellStyle(DeviceName, true, CheckIndex(None, devices), first.id in written);
    row := row[1 := Cell(Text(first.name), Some(style))];
    BlockRowsAppend(sheet, rowId, item, written, 0, row);
    assert Ids(devices[..1]) == [first.id];
    sheet', rowId', written' := WriteLaterRows(sheet[rowId := row], rowId, written, item);
  }

  /**
   * The rest of the device loop of `createExcel`: one row per remaining device,
   * blank under the email, the device name in column 1.
   */
  method WriteLaterRows(sheet: Sheet, rowId: nat, written: seq<Id>, item: UserDeviceItem)
    returns (sheet': Sheet, rowId': nat, written': seq<Id>)
    requires |item.devices| >= 1
    requires HasRows(sheet, rowId + 1)
    requires BlockRowsHold(sheet, rowId, item, written, 1)
    ensures rowId' == rowId + Height(item)
    ensures written' == written + Ids(item.devices)
    ensures HasRows(sheet', rowId')
    ensures forall r: nat | r < rowId :: sheet'[r] == sheet[r]
    ensures BlockRowsHold(sheet', rowId, item, written, Height(item))
  {
    var devices := item.devices;
    sheet', rowId', written' := sheet, rowId + 1, written + Ids(devices[..1]);
    var k := 1;
    while k < |devices|
      invariant 1 <= k <= |devices|
      invariant rowId' == rowId + k
      invariant written' == written + Ids(devices[..k])
      invariant HasRows(sheet', rowId')
      invariant forall r: nat | r < rowId :: sheet'[r] == sheet[r]
      invariant BlockRowsHold(sheet', rowId, item, written, k)
    {
      var device := devices[k];
      LaterBlockRow(item, k, written);
      // createRow(rowId++), a blank cell in column 0, the device in column 1
      var row: Row := map[];
      row := row[0 := BLANK];
      var style := ApplyCellStyle(DeviceName, false, CheckIndex(Some(device), devices), device.id in written');
      row := row[1 := Cell(Text(device.name), Some(style))];
      BlockRowsAppend(sheet', rowId, item, written, k, row);
      sheet' := sheet'[rowId' := row];
      assert Ids(devices[..k + 1]) == Ids(devices[..k]) + [device.id];
      written' := written' + [device.id];
      rowId' := rowId' + 1;
      k := k + 1;
    }
    assert devices[..k] == devices;
  }

  /**
   * `createExcel`: the header, then one block per item starting at row 1,
   * then the total in row 2. The run fails exactly when the blocks fill
   * fewer than two rows.
   */
  method CreateExcel(items: seq<UserDeviceItem>, counted: map<Id, Device>) returns (r: Result<Sheet, ReportError>)
    ensures r.Err? <==> BlockStart(items, |items|) <= TOTAL_ROW
    ensures r.Ok? ==> ReportLaidOut(items, |counted|, r.value)
  {
    var sheet: Sheet := CreateHeader(map[]);
    var written: seq<Id> := [];
    var rowId: nat := 1;
    var i := 0;
    while i < |items|
      invariant 0 <= i <= |items|
      invariant rowId == BlockStart(items, i)
      invariant written == WrittenBefore(items, i)
      invariant HasRows(sheet, rowId)
      invariant RowHolds(sheet, 0, HeaderRow())
      invariant BlocksLaidOut(items, i, sheet)
    {
      ghost var before := sheet;
      sheet, rowId, written := WriteUserBlock(sheet, rowId, written, items[i]);
      BlocksLaidOutFrame(items, i, before, sheet);
      BlocksLaidOutExtend(items, i, sheet);
      i := i + 1;
    }
    r := CreateTotal(sheet, counted);
    if r.Ok? {
      TotalKeepsLayout(items, |counted|, sheet);
    }
  }

  /**
   * `getDevicesInfo` without the final write to the output stream: the
   * report of the non-administrator users in storage order, totalled over
   * the distinct devices they see.
   */
  method GetDevicesInfo(users: seq<User>, fetch: User -> seq<Device>) returns (r: Result<Sheet, ReportError>)
    ensures var items := ItemsFor(users, fetch);
      (r.Err? <==> BlockStart(items, |items|) <= TOTAL_ROW) &&
      (r.Ok? ==> ReportLaidOut(items, |DeviceIds(items)|, r.value))
  {
    var items, counted := CollectUserDevices(users, fetch);
    r := CreateExcel(items, counted);
  }
}
