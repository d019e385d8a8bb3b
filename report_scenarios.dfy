/**
 * One concrete run of the report (an administrator and two users sharing a
 * device) and two block-level cases: a user with no devices, and a block
 * holding a single device.
 */
module ReportScenarios {
  import opened Wrappers
  import opened ReportModel
  import opened CellStyles
  import opened Workbook
  import opened ReportLayout

  const A := User(1, "a@x", true)
  const B := User(2, "b@x", false)
  const C := User(3, "c@x", false)
  const D1 := Device(10, "D1")
  const D2 := Device(20, "D2")

  /** B sees D1 and D2, C sees D2, the administrator A sees nothing. */
  function Grants(u: User): seq<Device>
  {
    if u == B then [D1, D2] else if u == C then [D2] else []
  }

  /** The items of that run: B's block, then C's. */
  const Shared := [UserDeviceItem(B, [D1, D2]), UserDeviceItem(C, [D2])]

  /** The administrator is dropped; B's block comes before C's. */
  lemma SharedDeviceItems()
    ensures ItemsFor([A, B, C], Grants) == Shared
  {
    var kept := NonAdmins([A, B, C]);
    assert kept == [B, C] by {
      assert [A, B, C][1..] == [B, C];
      assert [B, C][1..] == [C];
      assert [C][1..] == [];
      assert NonAdmins([C]) == [C];
      assert NonAdmins([B, C]) == [B, C];
    }
    assert Grants(B) == [D1, D2];
    assert C != B;
    assert Grants(C) == [D2];
    var items := ItemsFor([A, B, C], Grants);
    assert items[0] == UserDeviceItem(kept[0], Grants(kept[0]));
    assert items[1] == UserDeviceItem(kept[1], Grants(kept[1]));
  }

  /** D2, shared by B and C, is counted once: two distinct devices. */
  lemma SharedDeviceCount()
    ensures |DeviceIds(Shared)| == 2
  {
    assert Shared[..1][..0] == [];
    assert Shared[..2][..1] == Shared[..1];
    assert Shared[..2] == Shared;
    assert IdSet([D1, D2]) == {10, 20} by {
      assert D1 in [D1, D2] && D2 in [D1, D2];
    }
    assert IdSet([D2]) == {20};
    assert DeviceIds(Shared[..1]) == {10, 20};
    assert DeviceIds(Shared) == {10, 20};
  }

  /** Where the blocks of that run start, and what is written before C's block. */
  lemma SharedBlocks()
    ensures BlockStart(Shared, 0) == 1 && BlockStart(Shared, 1) == 3 && BlockStart(Shared, 2) == 4
    ensures WrittenBefore(Shared, 1) == [10, 20]
  {
    assert Ids([D1, D2]) == [10, 20];
  }

  /** Row 1 of that run: B's email, then D1, fresh, top of the block and not its bottom. */
  lemma SharedRow1(s: Sheet)
    requires ReportLaidOut(Shared, 2, s)
    ensures 1 in s && s[1] == map[0 := Cell(Text("b@x"), Some(ApplyCellStyle(Email, true, true, false))),
                                  1 := Cell(Text("D1"), Some(ApplyCellStyle(DeviceName, true, false, false)))]
  {
    SharedBlocks();
    assert RowHolds(s, 1, ExpectedDataRow(Shared, 0, 0));
  }

  /** Row 2 of that run: D2 under B, fresh and at the bottom, with the total written beside it. */
  lemma SharedRow2(s: Sheet)
    requires ReportLaidOut(Shared, 2, s)
    ensures 2 in s && s[2] == WithTotal(map[0 := BLANK, 1 := Cell(Text("D2"), Some(ApplyCellStyle(DeviceName, false, true, false)))], 2)
  {
    SharedBlocks();
    assert RowHolds(s, 2, WithTotal(ExpectedDataRow(Shared, 0, 1), 2));
    assert [D1, D2][..1] == [D1];
    assert Ids([D1]) == [10];
  }

  /** Row 3 of that run: C's email, then D2 again, now a duplicate. */
  lemma SharedRow3(s: Sheet)
    requires ReportLaidOut(Shared, 2, s)
    ensures 3 in s && s[3] == map[0 := Cell(Text("c@x"), Some(ApplyCellStyle(Email, true, true, false))),
                                  1 := Cell(Text("D2"), Some(ApplyCellStyle(DeviceName, true, true, true)))]
  {
    SharedBlocks();
    assert RowHolds(s, 3, ExpectedDataRow(Shared, 1, 0));
  }

  /** The finished sheet of that run has rows 0 to 3, and its cost cell reads "120 RSD". */
  lemma SharedDeviceSheet(s: Sheet)
    requires ReportLaidOut(Shared, 2, s)
    ensures s.Keys == {0, 1, 2, 3}
    ensures CostText(2) == "120 RSD"
  {
    SharedBlocks();
    assert Decimal.IntToString(120) == "120" by {
      assert Decimal.NatToString(12) == "12";
    }
  }

  /** A user without devices gets exactly one row, holding only the email. */
  lemma NoDevicesOneRow(u: User, before: seq<Id>)
    ensures Height(UserDeviceItem(u, [])) == 1
    ensures BlockRow(UserDeviceItem(u, []), 0, before).Keys == {0}
    ensures BlockRow(UserDeviceItem(u, []), 0, before)[0].value == Text(u.email)
  {
  }

  /** A single device is both the top and the bottom of its block. */
  lemma SingleDeviceTopAndBottom(u: User, d: Device, before: seq<Id>)
    ensures var style := BlockRow(UserDeviceItem(u, [d]), 0, before)[1].style.value;
      style.borders.top == Line(Thick, style.borders.left.colour) &&
      style.borders.bottom == Line(Thick, style.borders.left.colour)
  {
  }
}
