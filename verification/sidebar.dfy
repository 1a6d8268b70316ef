/** The navigation menu: its fixed items, which one is highlighted, and the
    pending-orders badge. */
module Sidebar {
  import opened Common
  import opened Text

  const Overview: string := "Tổng quan"
  const CreatePostLabel: string := "Tạo bài đăng"
  const ScheduleLabel: string := "Lịch đăng"
  const LookbookLabel: string := "Lookbook"
  const LivestreamLabel: string := "Livestream"
  const StatisticsLabel: string := "Thống kê"
  const OrdersLabel: string := "Quản lý đơn hàng"
  const SettingsLabel: string := "Cài đặt"

  /** The menu items, top to bottom. */
  const Menu: seq<string> := [Overview, CreatePostLabel, ScheduleLabel, LookbookLabel,
                              LivestreamLabel, StatisticsLabel, OrdersLabel, SettingsLabel]

  /** No two menu items share a label. */
  lemma MenuLabelsDistinct()
    ensures |Menu| == 8
    ensures forall i, j :: 0 <= i < j < |Menu| ==> Menu[i] != Menu[j]
  {
    assert Menu[0] != Menu[1] && Menu[0] != Menu[2] && Menu[0] != Menu[3] && Menu[0] != Menu[4];
    assert Menu[0] != Menu[5] && Menu[0] != Menu[6] && Menu[0] != Menu[7];
    assert Menu[1] != Menu[2] && Menu[1] != Menu[3] && Menu[1] != Menu[4] && Menu[1] != Menu[5];
    assert Menu[1] != Menu[6] && Menu[1] != Menu[7];
    assert Menu[2] != Menu[3] && Menu[2] != Menu[4] && Menu[2] != Menu[5] && Menu[2] != Menu[6];
    assert Menu[2] != Menu[7];
    assert Menu[3] != Menu[4] && Menu[3] != Menu[5] && Menu[3] != Menu[6] && Menu[3] != Menu[7];
    assert Menu[4] != Menu[5] && Menu[4] != Menu[6] && Menu[4] != Menu[7];
    assert Menu[5] != Menu[6] && Menu[5] != Menu[7];
    assert Menu[6] != Menu[7];
  }

  /** The props after defaults: `activeLabel` and `pendingCount` are optional. */
  datatype Props = Props(activeLabel: string, pendingCount: int)

  function WithDefaults(activeLabel: Option<string>, pendingCount: Option<int>): (p: Props)
    ensures p.activeLabel == activeLabel.GetOr(Overview)
    ensures p.pendingCount == pendingCount.GetOr(0)
  {
    Props(activeLabel.GetOr(Overview), pendingCount.GetOr(0))
  }

  /** The highlighted items: those whose label is the active one. */
  function Highlighted(p: Props): (r: seq<bool>)
    ensures |r| == |Menu|
    ensures forall i :: 0 <= i < |Menu| ==> (r[i] <==> Menu[i] == p.activeLabel)
  {
    MapSeq(Menu, (l: string) => l == p.activeLabel)
  }

  /** At most one item is highlighted, and exactly one when the active label
      is a menu label. */
  lemma AtMostOneHighlighted(p: Props)
    ensures forall i, j :: 0 <= i < j < |Menu| ==> !(Highlighted(p)[i] && Highlighted(p)[j])
    ensures p.activeLabel in Menu <==> exists i :: 0 <= i < |Menu| && Highlighted(p)[i]
  {
    MenuLabelsDistinct();
    if p.activeLabel in Menu {
      var i :| 0 <= i < |Menu| && Menu[i] == p.activeLabel;
      assert Highlighted(p)[i];
    }
  }

  /** The badge on an item: only the orders item, only for a positive count,
      showing `99+` above 99 and the count otherwise. */
  function Badge(item: string, pendingCount: int): (b: Option<string>)
    ensures b.Some? <==> item == OrdersLabel && pendingCount > 0
    ensures b.Some? && pendingCount > 99 ==> b.value == "99+"
    ensures b.Some? && pendingCount <= 99 ==>
              b.value == NatToString(pendingCount) && DigitsValue(b.value) == pendingCount
  {
    if item == OrdersLabel && pendingCount > 0 then
      if pendingCount > 99 then Some("99+")
      else
        NatToStringValue(pendingCount);
        Some(NatToString(pendingCount))
    else None
  }

  /** With the defaults, no badge is shown anywhere. */
  lemma NoBadgeByDefault(i: nat)
    requires i < |Menu|
    ensures Badge(Menu[i], WithDefaults(None, None).pendingCount).None?
  {
  }

  /** Clicking item `i` reports that item's own label. */
  function Click(i: nat): (picked: string)
    requires i < |Menu|
    ensures picked in Menu
    ensures forall j :: 0 <= j < |Menu| && Menu[j] == picked ==> j == i
  {
    MenuLabelsDistinct();
    Menu[i]
  }
}
