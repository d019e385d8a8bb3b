/**
 * The devices report as a specification: which users and devices it lists,
 * the distinct-device registry, and, cell by cell, the sheet it produces.
 * Block `i` of the sheet belongs to the `i`-th non-administrator user; its
 * row `j` holds that user's `j`-th device.
 */
module ReportLayout {
  import opened Wrappers
  import opened ReportModel
  import opened CellStyles
  import opened Workbook
  import Decimal

  /** Price per distinct device, and the currency suffix of the cost cell. */
  const UNIT_PRICE: int := 60
  const CURRENCY: string := " RSD"

  /** The row the total is written into, whatever the number of data rows. */
  const TOTAL_ROW: nat := 2

  // ---------------------------------------------------------------------------
  // Aggregation
  // ---------------------------------------------------------------------------

  /** The users left after dropping administrators, in storage order. */
  function NonAdmins(users: seq<User>): (r: seq<User>)
    ensures forall u :: u in r <==> u in users && !u.administrator
    ensures |r| <= |users|
  {
    if users == [] then []
    else (if users[0].administrator then [] else [users[0]]) + NonAdmins(users[1..])
  }

  /** Filtering keeps the relative order of the users it keeps. */
  lemma {:induction false} NonAdminsAppend(a: seq<User>, b: seq<User>)
    ensures NonAdmins(a + b) == NonAdmins(a) + NonAdmins(b)
  {
    if a == [] {
      assert a + b == b;
    } else {
      assert (a + b)[1..] == a[1..] + b;
      NonAdminsAppend(a[1..], b);
    }
  }

  /** One item per non-administrator user, in storage order, with the devices storage grants it directly. */
  function ItemsFor(users: seq<User>, fetch: User -> seq<Device>): seq<UserDeviceItem>
  {
    var kept := NonAdmins(users);
    seq(|kept|, k requires 0 <= k < |kept| => UserDeviceItem(kept[k], fetch(kept[k])))
  }

  function IdSet(devices: seq<Device>): set<Id>
  {
    set d | d in devices :: d.id
  }

  /** The ids of every device listed under any of `items`. */
  function DeviceIds(items: seq<UserDeviceItem>): set<Id>
  {
    if items == [] then {} else DeviceIds(items[..|items| - 1]) + IdSet(items[|items| - 1].devices)
  }

  /** The registry after putting each of `devices` under its id, in order: a later device replaces an earlier one with the same id. */
  function Registered(counted: map<Id, Device>, devices: seq<Device>): map<Id, Device>
  {
    if devices == [] then counted
    else Registered(counted, devices[..|devices| - 1])[devices[|devices| - 1].id := devices[|devices| - 1]]
  }

  /** The registry after `countDevices` has run on every item's devices, item by item, from an empty map. */
  function RegisteredAll(items: seq<UserDeviceItem>): map<Id, Device>
  {
    if items == [] then map[] else Registered(RegisteredAll(items[..|items| - 1]), items[|items| - 1].devices)
  }

  /** No device after position `j` and before position `k` has the id of the device at `j`. */
  ghost predicate LastOfItsId(devices: seq<Device>, j: nat, k: nat)
    requires j < k <= |devices|
  {
    forall j' | j < j' < k :: devices[j'].id != devices[j].id
  }

  /**
   * Putting `devices` adds exactly their ids; every id put maps to one of
   * the devices carrying it; other ids keep their device.
   */
  lemma {:induction false} RegisteredProperties(counted: map<Id, Device>, devices: seq<Device>)
    ensures Registered(counted, devices).Keys == counted.Keys + IdSet(devices)
    ensures forall key | key in counted && key !in IdSet(devices) :: Registered(counted, devices)[key] == counted[key]
    ensures forall key | key in IdSet(devices) :: Registered(counted, devices)[key] in devices && Registered(counted, devices)[key].id == key
    decreases |devices|
  {
    if devices != [] {
      var n := |devices|;
      var init := devices[..n - 1];
      var last := devices[n - 1];
      RegisteredProperties(counted, init);
      assert devices == init + [last];
      assert IdSet(devices) == IdSet(init) + {last.id};
    }
  }

  /** Of several devices sharing an id, the last one put is the one the registry keeps. */
  lemma {:induction false} RegisteredLastWins(counted: map<Id, Device>, devices: seq<Device>)
    ensures forall j | 0 <= j < |devices| && LastOfItsId(devices, j, |devices|) ::
      devices[j].id in Registered(counted, devices) && Registered(counted, devices)[devices[j].id] == devices[j]
    decreases |devices|
  {
    if devices != [] {
      var n := |devices|;
      var init := devices[..n - 1];
      RegisteredLastWins(counted, init);
      forall j | 0 <= j < n && LastOfItsId(devices, j, n)
        ensures devices[j].id in Registered(counted, devices) && Registered(counted, devices)[devices[j].id] == devices[j]
      {
        if j < n - 1 {
          assert LastOfItsId(init, j, n - 1);
        }
      }
    }
  }

  // ---------------------------------------------------------------------------
  // Bottom-of-block test
  // ---------------------------------------------------------------------------

  /** `List.indexOf`: the first position holding `d`, or -1. */
  function IndexOf(devices: seq<Device>, d: Device): (r: int)
    ensures r == -1 <==> d !in devices
    ensures r != -1 ==> 0 <= r < |devices| && devices[r] == d
    ensures forall k | 0 <= k < r :: devices[k] != d
  {
    if devices == [] then -1
    else if devices[0] == d then 0
    else
      var t := IndexOf(devices[1..], d);
      if t == -1 then -1 else t + 1
  }

  /**
   * `checkIndex`: for the first device (`None`, Java's null) whether it is
   * the only one; for a later device whether its first occurrence is last,
   * that is, whether it occurs at the last position and nowhere before (an
   * empty list passes, as `indexOf` then returns -1 == size - 1).
   */
  function CheckIndex(device: Option<Device>, devices: seq<Device>): (b: bool)
    ensures device.None? ==> (b <==> |devices| == 1)
    ensures device.Some? ==> (b <==> |devices| == 0 ||
                                     (devices[|devices| - 1] == device.value &&
                                      forall k | 0 <= k < |devices| - 1 :: devices[k] != device.value))
  {
    match device
    case None => |devices| == 1
    case Some(d) =>
      assert |devices| > 0 ==> devices[|devices| - 1] in devices;
      IndexOf(devices, d) == |devices| - 1
  }

  /** The bottom flag of the device at position `j` of its block. */
  function IsBottom(devices: seq<Device>, j: nat): bool
    requires j < |devices|
  {
    CheckIndex(if j == 0 then None else Some(devices[j]), devices)
  }

  predicate Distinct(devices: seq<Device>)
  {
    forall a, b | 0 <= a < b < |devices| :: devices[a] != devices[b]
  }

  /** When no device repeats under one user, exactly the last device closes the block. */
  lemma BottomIsLastWhenDistinct(devices: seq<Device>, j: nat)
    requires j < |devices| && Distinct(devices)
    ensures IsBottom(devices, j) <==> j == |devices| - 1
  {
    if j > 0 {
      var r := IndexOf(devices, devices[j]);
      assert r == j;
    }
  }

  /** `indexOf` finds the first copy, so a repeated later entry never closes its block. */
  lemma RepeatedDeviceIsNotBottom(devices: seq<Device>, j: nat, earlier: nat)
    requires earlier < j < |devices| && devices[earlier] == devices[j]
    ensures !IsBottom(devices, j)
  {
  }

  // ---------------------------------------------------------------------------
  // Blocks and rows
  // ---------------------------------------------------------------------------

  /** Rows a user's block takes: one per device, and one for a user with none. */
  function Height(item: UserDeviceItem): (h: nat)
    ensures h >= 1 && h >= |item.devices|
    ensures h == 1 || h == |item.devices|
  {
    if |item.devices| == 0 then 1 else |item.devices|
  }

  /** Data rows taken by the first `n` blocks. */
  function RowsBefore(items: seq<UserDeviceItem>, n: nat): nat
    requires n <= |items|
  {
    if n == 0 then 0 else RowsBefore(items, n - 1) + Height(items[n - 1])
  }

  /** First row of block `n` (row 0 is the header). For `n == |items|`, one past the last data row. */
  function BlockStart(items: seq<UserDeviceItem>, n: nat): nat
    requires n <= |items|
  {
    1 + RowsBefore(items, n)
  }

  function Ids(devices: seq<Device>): (r: seq<Id>)
    ensures |r| == |devices| && forall k | 0 <= k < |r| :: r[k] == devices[k].id
  {
    seq(|devices|, k requires 0 <= k < |devices| => devices[k].id)
  }

  /** Ids of the device cells written by the first `n` blocks, in the order they were written. */
  function WrittenBefore(items: seq<UserDeviceItem>, n: nat): seq<Id>
    requires n <= |items|
  {
    if n == 0 then [] else WrittenBefore(items, n - 1) + Ids(items[n - 1].devices)
  }

  /** Ids written before the device cell of row `j` of block `i`. */
  function WrittenAt(items: seq<UserDeviceItem>, i: nat, j: nat): seq<Id>
    requires i < |items| && j <= |items[i].devices|
  {
    WrittenBefore(items, i) + Ids(items[i].devices[..j])
  }

  /** Every device id in the order the report writes its cells. */
  function Emissions(items: seq<UserDeviceItem>): seq<Id>
  {
    WrittenBefore(items, |items|)
  }

  /** The email cell that opens a block. */
  function OwnerCell(user: User): Cell
  {
    Cell(Text(user.email), Some(ApplyCellStyle(Email, true, true, false)))
  }

  /** The device-name cell of row `j` of a block, given the ids already written. */
  function DeviceCell(devices: seq<Device>, j: nat, written: seq<Id>): Cell
    requires j < |devices|
  {
    Cell(Text(devices[j].name),
         Some(ApplyCellStyle(DeviceName, j == 0, IsBottom(devices, j), devices[j].id in written)))
  }

  /**
   * Row `j` of a user's block, given the ids written before the block: the
   * email (first row) or a blank cell (later rows) in column 0, and the
   * `j`-th device in column 1 unless the user has none.
   */
  function BlockRow(item: UserDeviceItem, j: nat, before: seq<Id>): Row
    requires j < Height(item)
  {
    var devices := item.devices;
    var first := if j == 0 then OwnerCell(item.user) else BLANK;
    if |devices| == 0 then map[0 := first]
    else map[0 := first, 1 := DeviceCell(devices, j, before + Ids(devices[..j]))]
  }

  /** The first row of a block is the email cell, then the first device (if any) judged against `before`. */
  lemma FirstBlockRow(item: UserDeviceItem, before: seq<Id>)
    ensures var owner := map[0 := Cell(Text(item.user.email), Some(ApplyCellStyle(Email, true, true, false)))];
      BlockRow(item, 0, before) ==
        if |item.devices| == 0 then owner
        else owner[1 := Cell(Text(item.devices[0].name),
                             Some(ApplyCellStyle(DeviceName, true, CheckIndex(None, item.devices), item.devices[0].id in before)))]
  {
    assert item.devices[..0] == [];
  }

  /** A later row of a block is a blank cell, then the device judged against everything written before it. */
  lemma LaterBlockRow(item: UserDeviceItem, k: nat, before: seq<Id>)
    requires 1 <= k < |item.devices|
    ensures var device := item.devices[k];
      BlockRow(item, k, before) ==
        map[0 := BLANK][1 := Cell(Text(device.name),
          Some(ApplyCellStyle(DeviceName, false, CheckIndex(Some(device), item.devices), device.id in before + Ids(item.devices[..k]))))]
  {
  }

  /** Row `j` of block `i` of the report. */
  function ExpectedDataRow(items: seq<UserDeviceItem>, i: nat, j: nat): Row
    requires i < |items| && j < Height(items[i])
  {
    BlockRow(items[i], j, WrittenBefore(items, i))
  }

  /** Row 0: the two tags as labels, in their own styles with the larger font. */
  function HeaderRow(): (r: Row)
    ensures r.Keys == {0, 1}
    ensures r[0] == Cell(Text("EMAIL"), Some(HeaderStyle(Email)))
    ensures r[1] == Cell(Text("URE\U{0110}AJ"), Some(HeaderStyle(DeviceName)))
  {
    map[0 := Cell(Text(Tag(Email)), Some(HeaderStyle(Email))),
        1 := Cell(Text(Tag(DeviceName)), Some(HeaderStyle(DeviceName)))]
  }

  // ---------------------------------------------------------------------------
  // Total row
  // ---------------------------------------------------------------------------

  /** The cost text `count * 60 + " RSD"`, with Java's `int` multiplication. */
  function CostText(count: nat): (t: string)
    ensures |t| > |CURRENCY| && t[|t| - |CURRENCY|..] == CURRENCY
  {
    Decimal.IntToString(Decimal.JavaInt(count * UNIT_PRICE)) + CURRENCY
  }

  /** The cost text reads back, before its currency suffix, as the `int` value of `count * 60`. */
  lemma CostTextReadsBack(count: nat)
    ensures var t := CostText(count); var digits := t[..|t| - |CURRENCY|];
      (digits[0] == '-' || Decimal.IsDigit(digits[0])) && (forall k | 1 <= k < |digits| :: Decimal.IsDigit(digits[k])) &&
      Decimal.ParseInt(digits) == Decimal.JavaInt(count * UNIT_PRICE)
  {
    var value := Decimal.JavaInt(count * UNIT_PRICE);
    Decimal.IntToStringRoundTrip(value);
    var digits := Decimal.IntToString(value);
    assert (digits + CURRENCY)[..|digits|] == digits;
  }

  function TotalCell(value: Value): Cell
  {
    Cell(value, Some(ApplyCellStyle(Total, true, true, false)))
  }

  /** `row` with blank cells created in the columns from `lo` up to but excluding `hi`. */
  function Blanks(row: Row, lo: nat, hi: nat): Row
    decreases hi
  {
    if hi <= lo then row else Blanks(row, lo, hi - 1)[hi - 1 := BLANK]
  }

  /** Column `c` after `Blanks`: blank inside the range, as before outside it. */
  lemma {:induction false} BlanksAt(row: Row, lo: nat, hi: nat, c: nat)
    ensures c in Blanks(row, lo, hi) <==> c in row || lo <= c < hi
    ensures c in Blanks(row, lo, hi) ==> Blanks(row, lo, hi)[c] == if lo <= c < hi then BLANK else row[c]
    decreases hi
  {
    if lo < hi {
      BlanksAt(row, lo, hi - 1, c);
    }
  }

  /** Blank cells in columns 2 to 7 of `row`, then `x`, `y` and `z` in columns 8, 9 and 10. */
  function TotalFill(row: Row, x: Cell, y: Cell, z: Cell): Row
  {
    Blanks(row, 2, 8)[8 := x][9 := y][10 := z]
  }

  /** Row `row` after the total is written into it (see `TotalRowContents`). */
  function WithTotal(row: Row, count: nat): Row
  {
    TotalFill(row, TotalCell(Text("Total")), TotalCell(Number(count)), TotalCell(Text(CostText(count))))
  }

  /**
   * The total row: blank cells in columns 2 to 7, and every cell outside
   * columns 2 to 10 as it was.
   */
  lemma TotalRowContents(row: Row, count: nat)
    ensures forall c :: c in WithTotal(row, count) <==> c in row || 2 <= c <= 10
    ensures forall c | c in row && !(2 <= c <= 10) :: WithTotal(row, count)[c] == row[c]
    ensures forall c | 2 <= c <= 7 :: WithTotal(row, count)[c] == BLANK
  {
    TotalCellsAt(row, TotalCell(Text("Total")), TotalCell(Number(count)), TotalCell(Text(CostText(count))));
  }

  /** The total row: "Total" in column 8, the count in 9 and the cost in 10, all in the total style. */
  lemma TotalRowCells(row: Row, count: nat)
    ensures 8 in WithTotal(row, count) && WithTotal(row, count)[8] == TotalCell(Text("Total"))
    ensures 9 in WithTotal(row, count) && WithTotal(row, count)[9] == TotalCell(Number(count))
    ensures 10 in WithTotal(row, count) && WithTotal(row, count)[10] == TotalCell(Text(CostText(count)))
  {
  }

  /** Blanks in columns 2 to 7, then three given cells in columns 8 to 10, and every other cell kept. */
  lemma TotalCellsAt(row: Row, x: Cell, y: Cell, z: Cell)
    ensures forall c :: c in TotalFill(row, x, y, z) <==> c in row || 2 <= c <= 10
    ensures forall c | c in row && !(2 <= c <= 10) :: TotalFill(row, x, y, z)[c] == row[c]
    ensures forall c | 2 <= c <= 7 :: TotalFill(row, x, y, z)[c] == BLANK
  {
    forall c: nat
      ensures c in Blanks(row, 2, 8) <==> c in row || 2 <= c < 8
      ensures c in Blanks(row, 2, 8) ==> Blanks(row, 2, 8)[c] == if 2 <= c < 8 then BLANK else row[c]
    {
      BlanksAt(row, 2, 8, c);
    }
  }

  /** Below 2^31 / 60 distinct devices the cost is the exact product, in plain digits. */
  lemma CostIsExact(count: nat)
    requires count * UNIT_PRICE < Decimal.TWO_POW_31
    ensures CostText(count) == Decimal.NatToString(count * UNIT_PRICE) + CURRENCY
  {
  }

  // ---------------------------------------------------------------------------
  // The whole sheet
  // ---------------------------------------------------------------------------

  /** The sheet has rows 0 to `n - 1` and no others. */
  ghost predicate HasRows(s: Sheet, n: nat)
  {
    forall r: nat :: r in s <==> r < n
  }

  /** Row `r` of the sheet exists and is `row`. */
  ghost predicate RowHolds(s: Sheet, r: nat, row: Row)
  {
    r in s && s[r] == row
  }

  /** Creating row `n` of a sheet with rows 0 to `n - 1` adds one row and keeps the others. */
  lemma AppendRow(s: Sheet, n: nat, row: Row)
    requires HasRows(s, n)
    ensures HasRows(s[n := row], n + 1)
    ensures forall r: nat | r < n :: s[n := row][r] == s[r]
  {
  }

  /** Rows `n` to `n + k - 1` of `s` are the first `k` rows of the block of `item`. */
  ghost predicate BlockRowsHold(s: Sheet, n: nat, item: UserDeviceItem, before: seq<Id>, k: nat)
    requires k <= Height(item)
  {
    forall j | 0 <= j < k :: RowHolds(s, n + j, BlockRow(item, j, before))
  }

  /** Appending the next row of a block after its first `k` rows gives its first `k + 1` rows. */
  lemma BlockRowsAppend(s: Sheet, n: nat, item: UserDeviceItem, before: seq<Id>, k: nat, row: Row)
    requires k < Height(item) && HasRows(s, n + k) && BlockRowsHold(s, n, item, before, k)
    requires row == BlockRow(item, k, before)
    ensures HasRows(s[n + k := row], n + k + 1)
    ensures forall r: nat | r < n :: s[n + k := row][r] == s[r]
    ensures BlockRowsHold(s[n + k := row], n, item, before, k + 1)
  {
    AppendRow(s, n + k, row);
  }

  /** Each row of the first `n` blocks is where it belongs and holds what it should. */
  ghost predicate BlocksLaidOut(items: seq<UserDeviceItem>, n: nat, s: Sheet)
    requires n <= |items|
  {
    forall i, j | 0 <= i < n && 0 <= j < Height(items[i]) ::
      RowHolds(s, BlockStart(items, i) + j, ExpectedDataRow(items, i, j))
  }

  /** The sheet after the render loop: the header and every block, nothing else. */
  ghost predicate DataLaidOut(items: seq<UserDeviceItem>, s: Sheet)
  {
    HasRows(s, BlockStart(items, |items|)) && 0 in s && s[0] == HeaderRow() && BlocksLaidOut(items, |items|, s)
  }

  /** The finished report: as after the render loop, with the total written into row 2. */
  ghost predicate ReportLaidOut(items: seq<UserDeviceItem>, count: nat, s: Sheet)
  {
    HasRows(s, BlockStart(items, |items|)) && 0 in s && s[0] == HeaderRow() &&
    forall i, j | 0 <= i < |items| && 0 <= j < Height(items[i]) ::
      RowHolds(s, BlockStart(items, i) + j,
        if BlockStart(items, i) + j == TOTAL_ROW then WithTotal(ExpectedDataRow(items, i, j), count)
        else ExpectedDataRow(items, i, j))
  }

  // ---------------------------------------------------------------------------
  // Properties of the layout
  // ---------------------------------------------------------------------------

  /** A block ends no later than any later block starts. */
  lemma {:induction false} StartsIncrease(items: seq<UserDeviceItem>, i: nat, k: nat)
    requires i < k <= |items|
    ensures BlockStart(items, i) + Height(items[i]) <= BlockStart(items, k)
    decreases k
  {
    if k > i + 1 {
      StartsIncrease(items, i, k - 1);
    }
  }

  /** Every data row of the first `n` blocks belongs to some block, at some offset inside it. */
  lemma {:induction false} RowOwner(items: seq<UserDeviceItem>, n: nat, r: nat) returns (i: nat, j: nat)
    requires n <= |items| && 1 <= r < BlockStart(items, n)
    ensures i < n && j < Height(items[i]) && BlockStart(items, i) + j == r
    decreases n
  {
    if r >= BlockStart(items, n - 1) {
      i, j := n - 1, r - BlockStart(items, n - 1);
    } else {
      i, j := RowOwner(items, n - 1, r);
    }
  }

  /** No two (block, offset) pairs share a row: blocks never overlap. */
  lemma RowsDisjoint(items: seq<UserDeviceItem>, i: nat, j: nat, i': nat, j': nat)
    requires i < |items| && j < Height(items[i])
    requires i' < |items| && j' < Height(items[i'])
    requires BlockStart(items, i) + j == BlockStart(items, i') + j'
    ensures i == i' && j == j'
  {
    if i < i' {
      StartsIncrease(items, i, i');
    } else if i' < i {
      StartsIncrease(items, i', i);
    }
  }

  /** What the first `i` blocks write is a prefix of what the first `n` write. */
  lemma {:induction false} WrittenPrefix(items: seq<UserDeviceItem>, i: nat, n: nat)
    requires i <= n <= |items|
    ensures WrittenBefore(items, i) <= WrittenBefore(items, n)
    decreases n
  {
    if i < n {
      WrittenPrefix(items, i, n - 1);
    }
  }

  /**
   * The column pattern of a block: the email, styled as the block's top and
   * bottom, opens the first row; later rows start with a blank cell; column 1
   * holds the `j`-th device exactly when the user has devices, drawn with a
   * top border only on the first row and a thick bottom exactly when
   * `checkIndex` says so (the only device, or a later device whose first
   * occurrence is last in the list).
   */
  lemma BlockColumns(item: UserDeviceItem, j: nat, before: seq<Id>)
    requires j < Height(item)
    ensures var row := BlockRow(item, j, before);
      0 in row &&
      (j == 0 ==> row[0].value == Text(item.user.email) && row[0].style.Some? &&
                  ReadFlags(row[0].style.value) == (true, true, false)) &&
      (j > 0 ==> row[0] == BLANK) &&
      (1 in row <==> |item.devices| > 0) &&
      row.Keys <= {0, 1} &&
      (1 in row ==>
        row[1].value == Text(item.devices[j].name) && row[1].style.Some? &&
        row[1].style.value.borders.top.Line? == (j == 0) &&
        (row[1].style.value.borders.bottom.kind == Thick <==>
          if j == 0 then |item.devices| == 1 else IndexOf(item.devices, item.devices[j]) == |item.devices| - 1))
  {
  }

  /** The ids written before a device cell are exactly the emissions before its place in the render order. */
  lemma WrittenAtIsEmissionPrefix(items: seq<UserDeviceItem>, i: nat, j: nat)
    requires i < |items| && j <= |items[i].devices|
    ensures |WrittenBefore(items, i)| + j <= |Emissions(items)|
    ensures WrittenAt(items, i, j) == Emissions(items)[..|WrittenBefore(items, i)| + j]
  {
    var devices := items[i].devices;
    WrittenPrefix(items, i + 1, |items|);
    assert WrittenBefore(items, i + 1) == WrittenBefore(items, i) + Ids(devices);
    assert Ids(devices[..j]) == Ids(devices)[..j];
    assert WrittenAt(items, i, j) == WrittenBefore(items, i + 1)[..|WrittenBefore(items, i)| + j];
  }

  /**
   * A device cell takes the duplicate style exactly when its id was emitted
   * at an earlier place in the render order (under any user, this one
   * included): the first emission of an id is fresh, every later one is a
   * duplicate. The device name is written either way.
   */
  lemma DuplicateExactlyAfterFirstEmission(items: seq<UserDeviceItem>, i: nat, j: nat)
    requires i < |items| && j < |items[i].devices|
    ensures var g := |WrittenBefore(items, i)| + j;
      g < |Emissions(items)| && Emissions(items)[g] == items[i].devices[j].id &&
      1 in ExpectedDataRow(items, i, j) &&
      ExpectedDataRow(items, i, j)[1].value == Text(items[i].devices[j].name) &&
      ExpectedDataRow(items, i, j)[1].style.Some? &&
      (ExpectedDataRow(items, i, j)[1].style.value.fill == Grey25Percent <==>
        exists e :: 0 <= e < g && Emissions(items)[e] == Emissions(items)[g])
  {
    var g := |WrittenBefore(items, i)| + j;
    var devices := items[i].devices;
    WrittenAtIsEmissionPrefix(items, i, j);
    WrittenAtIsEmissionPrefix(items, i, j + 1);
    assert Ids(devices[..j + 1])[j] == devices[j].id;
    assert WrittenAt(items, i, j + 1)[g] == devices[j].id;
    var written := Emissions(items)[..g];
    assert devices[j].id in written <==> exists e :: 0 <= e < g && Emissions(items)[e] == Emissions(items)[g] by {
      if devices[j].id in written {
        var e :| 0 <= e < |written| && written[e] == devices[j].id;
        assert Emissions(items)[e] == Emissions(items)[g];
      }
      if exists e :: 0 <= e < g && Emissions(items)[e] == Emissions(items)[g] {
        var e :| 0 <= e < g && Emissions(items)[e] == Emissions(items)[g];
        assert written[e] == devices[j].id;
      }
    }
  }

  /** The distinct device ids of the first `n` items are the distinct ids they emit. */
  lemma {:induction false} DeviceIdsAreEmitted(items: seq<UserDeviceItem>, n: nat)
    requires n <= |items|
    ensures DeviceIds(items[..n]) == set x | x in WrittenBefore(items, n)
    decreases n
  {
    if n > 0 {
      var prefix := items[..n];
      assert prefix[..n - 1] == items[..n - 1];
      DeviceIdsAreEmitted(items, n - 1);
      var devices := items[n - 1].devices;
      assert (set x | x in Ids(devices)) == IdSet(devices) by {
        forall x | x in IdSet(devices) ensures x in Ids(devices) {
          var d :| d in devices && d.id == x;
          var k :| 0 <= k < |devices| && devices[k] == d;
          assert Ids(devices)[k] == x;
        }
      }
    }
  }

  /**
   * The registry's keys are the distinct ids among all device cells of the
   * report, so its size counts a device shared by several users once.
   */
  lemma RegistrySizeIsDistinctDevices(items: seq<UserDeviceItem>)
    ensures DeviceIds(items) == set x | x in Emissions(items)
  {
    assert items[..|items|] == items;
    DeviceIdsAreEmitted(items, |items|);
  }

  /** The finished report is determined by the items and the count: two sheets that both satisfy it are equal. */
  lemma ReportIsDetermined(items: seq<UserDeviceItem>, count: nat, s: Sheet, s': Sheet)
    requires ReportLaidOut(items, count, s) && ReportLaidOut(items, count, s')
    ensures s == s'
  {
    forall r | r in s
      ensures r in s' && s[r] == s'[r]
    {
      if r != 0 {
        var i, j := RowOwner(items, |items|, r);
        var row := if r == TOTAL_ROW then WithTotal(ExpectedDataRow(items, i, j), count) else ExpectedDataRow(items, i, j);
        assert RowHolds(s, r, row) && RowHolds(s', r, row);
      }
    }
  }

  /** Rows below block `i`'s start that two sheets share carry the first `i` blocks over from one to the other. */
  lemma BlocksLaidOutFrame(items: seq<UserDeviceItem>, i: nat, s: Sheet, s': Sheet)
    requires i <= |items| && BlocksLaidOut(items, i, s)
    requires forall r: nat | r < BlockStart(items, i) && r in s :: r in s' && s'[r] == s[r]
    ensures BlocksLaidOut(items, i, s')
  {
    forall i', j | 0 <= i' < i && 0 <= j < Height(items[i'])
      ensures RowHolds(s', BlockStart(items, i') + j, ExpectedDataRow(items, i', j))
    {
      StartsIncrease(items, i', i);
      assert RowHolds(s, BlockStart(items, i') + j, ExpectedDataRow(items, i', j));
    }
  }

  /** Writing the total into row 2 of a laid-out sheet gives the finished report. */
  lemma TotalKeepsLayout(items: seq<UserDeviceItem>, count: nat, s: Sheet)
    requires DataLaidOut(items, s) && TOTAL_ROW in s
    ensures ReportLaidOut(items, count, s[TOTAL_ROW := WithTotal(s[TOTAL_ROW], count)])
  {
  }

  /** A sheet holding the first `i` blocks and all rows of block `i` holds the first `i + 1` blocks. */
  lemma BlocksLaidOutExtend(items: seq<UserDeviceItem>, i: nat, s: Sheet)
    requires i < |items| && BlocksLaidOut(items, i, s)
    requires forall j | 0 <= j < Height(items[i]) :: RowHolds(s, BlockStart(items, i) + j, ExpectedDataRow(items, i, j))
    ensures BlocksLaidOut(items, i + 1, s)
  {
  }
}
