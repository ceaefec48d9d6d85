/**
 * The device inventory as the platform SDK returns it, and the script's
 * projection of each row onto the two columns it uses.
 */
module Inventory {

  /** One inventory row. Only `sn` and `hostname` are read by the script;
      the other columns are kept as an opaque map. */
  datatype InventoryRow = InventoryRow(sn: string, hostname: string, otherColumns: map<string, string>)

  /** A device descriptor: the `{"sn": ..., "hostname": ...}` dictionary. */
  datatype Device = Device(sn: string, hostname: string)

  /** The list comprehension over the inventory: one descriptor per row,
      keeping exactly `sn` and `hostname`, in the order of the rows. */
  function ProjectDevices(rows: seq<InventoryRow>): (devices: seq<Device>)
    ensures |devices| == |rows|
    ensures forall i :: 0 <= i < |rows| ==>
      devices[i].sn == rows[i].sn && devices[i].hostname == rows[i].hostname
  {
    if rows == [] then []
    else [Device(rows[0].sn, rows[0].hostname)] + ProjectDevices(rows[1..])
  }

  /** Columns other than `sn` and `hostname` never influence the projection. */
  lemma {:induction false} ProjectionIgnoresOtherColumns(rows: seq<InventoryRow>, rows': seq<InventoryRow>)
    requires |rows| == |rows'|
    requires forall i :: 0 <= i < |rows| ==> rows[i].sn == rows'[i].sn && rows[i].hostname == rows'[i].hostname
    ensures ProjectDevices(rows) == ProjectDevices(rows')
  {
    var a, b := ProjectDevices(rows), ProjectDevices(rows');
    assert forall i :: 0 <= i < |a| ==> a[i] == b[i];
  }

  /** Projecting a concatenation projects each part, so device order is the row order. */
  lemma {:induction false} ProjectDevicesAppend(rows: seq<InventoryRow>, more: seq<InventoryRow>)
    ensures ProjectDevices(rows + more) == ProjectDevices(rows) + ProjectDevices(more)
  {
    var a, b := ProjectDevices(rows + more), ProjectDevices(rows) + ProjectDevices(more);
    assert |a| == |b|;
    forall i | 0 <= i < |a| ensures a[i] == b[i] {
      if i < |rows| {
        assert (rows + more)[i] == rows[i];
      } else {
        assert (rows + more)[i] == more[i - |rows|];
      }
    }
  }
}
